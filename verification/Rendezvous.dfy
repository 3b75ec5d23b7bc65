/** Rendezvous hashing: the highest score owns a key. */
module Rendezvous {
  import opened Common

  type Id = string
  type Key = string

  datatype RingNode = RingNode(id: Id, weight: real)

  datatype Scored = Scored(id: Id, score: real)

  /** The score of a key at a node of some weight; the hash behind it is a parameter. */
  type Score = (Key, Id, real) -> real

  function ScoreAll(score: Score, key: Key, nodes: seq<RingNode>): (s: seq<Scored>)
    ensures |s| == |nodes|
  {
    seq(|nodes|, i requires 0 <= i < |nodes| => Scored(nodes[i].id, score(key, nodes[i].id, nodes[i].weight)))
  }

  // ---- Stable descending sort ----

  function InsertAfterEquals(s: seq<Scored>, x: Scored): (r: seq<Scored>)
    ensures |r| == |s| + 1
  {
    if s == [] then [x]
    else if s[0].score >= x.score then [s[0]] + InsertAfterEquals(s[1..], x)
    else [x] + s
  }

  /** What `sort((a, b) => b.score - a.score)` makes of an array: descending, ties in their old order. */
  function SortDescending(s: seq<Scored>): (r: seq<Scored>)
    ensures |r| == |s|
  {
    if s == [] then [] else InsertAfterEquals(SortDescending(s[..|s| - 1]), s[|s| - 1])
  }

  ghost predicate Descending(s: seq<Scored>) {
    forall i, j :: 0 <= i < j < |s| ==> s[i].score >= s[j].score
  }

  /** The elements with score `v`, in order. */
  function AtScore(s: seq<Scored>, v: real): seq<Scored> {
    if s == [] then [] else (if s[0].score == v then [s[0]] else []) + AtScore(s[1..], v)
  }

  function Without(s: seq<Scored>, x: Id): seq<Scored> {
    if s == [] then [] else (if s[0].id == x then [] else [s[0]]) + Without(s[1..], x)
  }

  lemma AtScoreCons(x: Scored, s: seq<Scored>, v: real)
    ensures AtScore([x] + s, v) == (if x.score == v then [x] else []) + AtScore(s, v)
  {
    assert ([x] + s)[1..] == s;
  }

  lemma WithoutCons(x: Scored, s: seq<Scored>, id: Id)
    ensures Without([x] + s, id) == (if x.id == id then [] else [x]) + Without(s, id)
  {
    assert ([x] + s)[1..] == s;
  }

  lemma {:induction false} WithoutConcat(a: seq<Scored>, b: seq<Scored>, x: Id)
    ensures Without(a + b, x) == Without(a, x) + Without(b, x)
  {
    if a == [] {
      assert a + b == b;
    } else {
      assert (a + b)[1..] == a[1..] + b;
      WithoutConcat(a[1..], b, x);
      Assoc(if a[0].id == x then [] else [a[0]], Without(a[1..], x), Without(b, x));
    }
  }

  lemma {:induction false} AtScoreConcat(a: seq<Scored>, b: seq<Scored>, v: real)
    ensures AtScore(a + b, v) == AtScore(a, v) + AtScore(b, v)
  {
    if a == [] {
      assert a + b == b;
    } else {
      assert (a + b)[1..] == a[1..] + b;
      AtScoreConcat(a[1..], b, v);
      Assoc(if a[0].score == v then [a[0]] else [], AtScore(a[1..], v), AtScore(b, v));
    }
  }

  lemma {:induction false} InsertAddsOne(s: seq<Scored>, x: Scored)
    ensures multiset(InsertAfterEquals(s, x)) == multiset(s) + multiset{x}
  {
    if s != [] && s[0].score >= x.score {
      InsertAddsOne(s[1..], x);
      assert s == [s[0]] + s[1..];
    }
  }

  lemma {:induction false} InsertKeepsDescending(s: seq<Scored>, x: Scored)
    requires Descending(s)
    ensures Descending(InsertAfterEquals(s, x))
  {
    if s == [] {
    } else if s[0].score >= x.score {
      InsertKeepsDescending(s[1..], x);
      InsertAddsOne(s[1..], x);
      var rest := InsertAfterEquals(s[1..], x);
      forall j | 0 <= j < |rest|
        ensures s[0].score >= rest[j].score
      {
        assert rest[j] in multiset(rest);
        assert rest[j] == x || rest[j] in s[1..];
      }
    }
  }

  lemma {:induction false} InsertGoesLastAmongEquals(s: seq<Scored>, x: Scored, v: real)
    requires Descending(s)
    ensures AtScore(InsertAfterEquals(s, x), v) == AtScore(s, v) + if x.score == v then [x] else []
  {
    var last := if x.score == v then [x] else [];
    if s == [] {
      assert [x][1..] == [];
    } else if s[0].score >= x.score {
      var head := if s[0].score == v then [s[0]] else [];
      AtScoreCons(s[0], InsertAfterEquals(s[1..], x), v);
      InsertGoesLastAmongEquals(s[1..], x, v);
      Assoc(head, AtScore(s[1..], v), last);
    } else {
      AtScoreCons(x, s, v);
      if x.score == v {
        NoneAtHigherScore(s, v);
      }
    }
  }

  lemma {:induction false} NoneAtHigherScore(s: seq<Scored>, v: real)
    requires forall i :: 0 <= i < |s| ==> s[i].score < v
    ensures AtScore(s, v) == []
  {
    if s != [] {
      NoneAtHigherScore(s[1..], v);
    }
  }

  /** The sort is a descending permutation that keeps ties in their order; together these determine it. */
  lemma SortIsStable(s: seq<Scored>, v: real)
    ensures Descending(SortDescending(s))
    ensures multiset(SortDescending(s)) == multiset(s)
    ensures AtScore(SortDescending(s), v) == AtScore(s, v)
  {
    SortPermutes(s);
    SortDescends(s);
    SortKeepsTies(s, v);
  }

  lemma {:induction false} SortPermutes(s: seq<Scored>)
    ensures multiset(SortDescending(s)) == multiset(s)
  {
    if s != [] {
      var init, x := s[..|s| - 1], s[|s| - 1];
      SortPermutes(init);
      InsertAddsOne(SortDescending(init), x);
      assert s == init + [x];
    }
  }

  lemma {:induction false} SortDescends(s: seq<Scored>)
    ensures Descending(SortDescending(s))
  {
    if s != [] {
      SortDescends(s[..|s| - 1]);
      InsertKeepsDescending(SortDescending(s[..|s| - 1]), s[|s| - 1]);
    }
  }

  lemma {:induction false} SortKeepsTies(s: seq<Scored>, v: real)
    ensures AtScore(SortDescending(s), v) == AtScore(s, v)
  {
    if s != [] {
      var init, x := s[..|s| - 1], s[|s| - 1];
      SortKeepsTies(init, v);
      SortDescends(init);
      InsertGoesLastAmongEquals(SortDescending(init), x, v);
      assert s == init + [x];
      AtScoreConcat(init, [x], v);
      assert [x][1..] == [];
    }
  }

  lemma {:induction false} InsertCommutesWithRemoval(s: seq<Scored>, x: Scored, id: Id)
    requires Descending(s)
    ensures Without(InsertAfterEquals(s, x), id)
            == if x.id == id then Without(s, id) else InsertAfterEquals(Without(s, id), x)
  {
    if s == [] {
      assert [x][1..] == [];
    } else if s[0].score >= x.score {
      var rest := Without(s[1..], id);
      InsertCommutesWithRemoval(s[1..], x, id);
      WithoutCons(s[0], InsertAfterEquals(s[1..], x), id);
      assert ([s[0]] + rest)[1..] == rest;
      assert [] + rest == rest && [] + InsertAfterEquals(rest, x) == InsertAfterEquals(rest, x);
    } else {
      WithoutCons(x, s, id);
      LowerStaysLower(s, x.score, id);
      assert [] + Without(s, id) == Without(s, id);
    }
  }

  lemma {:induction false} LowerStaysLower(s: seq<Scored>, v: real, id: Id)
    requires forall i :: 0 <= i < |s| ==> s[i].score < v
    ensures forall i :: 0 <= i < |Without(s, id)| ==> Without(s, id)[i].score < v
  {
    if s != [] {
      LowerStaysLower(s[1..], v, id);
    }
  }

  /** Sorting the ring without `id` is sorting the ring and then taking `id` out. */
  lemma {:induction false} SortCommutesWithRemoval(s: seq<Scored>, id: Id)
    ensures SortDescending(Without(s, id)) == Without(SortDescending(s), id)
    decreases |s|
  {
    if s != [] {
      var init, x := s[..|s| - 1], s[|s| - 1];
      SortCommutesWithRemoval(init, id);
      SortDescends(init);
      InsertCommutesWithRemoval(SortDescending(init), x, id);
      assert s == init + [x];
      WithoutConcat(init, [x], id);
      RemovalOfLast(init, x, id);
    }
  }

  lemma RemovalOfLast(init: seq<Scored>, x: Scored, id: Id)
    ensures SortDescending(Without(init, id) + Without([x], id))
            == if x.id == id then SortDescending(Without(init, id))
               else InsertAfterEquals(SortDescending(Without(init, id)), x)
  {
    assert [x][1..] == [];
    var w := Without(init, id);
    if x.id == id {
      assert w + [] == w;
    } else {
      assert (w + [x])[..|w + [x]| - 1] == w;
    }
  }

  // ---- Ownership ----

  /** Position of the first node with the highest score. */
  ghost predicate IsBest(s: seq<Scored>, i: nat) {
    && i < |s|
    && (forall j :: 0 <= j < i ==> s[j].score < s[i].score)
    && (forall j :: i <= j < |s| ==> s[j].score <= s[i].score)
  }

  function Ids(s: seq<Scored>): (ids: seq<Id>)
    ensures |ids| == |s|
  {
    seq(|s|, i requires 0 <= i < |s| => s[i].id)
  }

  ghost predicate DistinctIds(nodes: seq<RingNode>) {
    forall i, j :: 0 <= i < j < |nodes| ==> nodes[i].id != nodes[j].id
  }

  /** All nodes from most to least preferred. */
  function Ranking(score: Score, key: Key, nodes: seq<RingNode>): seq<Scored> {
    SortDescending(ScoreAll(score, key, nodes))
  }

  function Owner(score: Score, key: Key, nodes: seq<RingNode>): Option<Id> {
    if nodes == [] then None else Some(Ranking(score, key, nodes)[0].id)
  }

  lemma {:induction false} BestIsFirst(s: seq<Scored>, i: nat)
    requires IsBest(s, i)
    ensures SortDescending(s)[0] == s[i]
    decreases |s|
  {
    var init, x := s[..|s| - 1], s[|s| - 1];
    if i < |s| - 1 {
      assert init[i] == s[i] && forall j :: 0 <= j < |init| ==> init[j] == s[j];
      BestIsFirst(init, i);
    } else if init != [] {
      SortPermutes(init);
      assert SortDescending(init)[0] in multiset(SortDescending(init));
      assert SortDescending(init)[0] in init;
    }
  }

  lemma {:induction false} SomeBest(s: seq<Scored>) returns (i: nat)
    requires s != []
    ensures IsBest(s, i)
  {
    if |s| == 1 {
      i := 0;
    } else {
      i := SomeBest(s[..|s| - 1]);
      if s[i].score < s[|s| - 1].score {
        i := |s| - 1;
      }
    }
  }

  /** The position of the only node with the highest score. */
  ghost predicate IsSoleBest(score: Score, key: Key, nodes: seq<RingNode>, i: nat) {
    i < |nodes| && forall n :: n in nodes && n != nodes[i] ==> ScoreOf(score, key, n) < ScoreOf(score, key, nodes[i])
  }

  function ScoreOf(score: Score, key: Key, n: RingNode): real {
    score(key, n.id, n.weight)
  }

  /** The answer does not depend on insertion order exactly when no two nodes tie for the highest score. */
  lemma OrderMattersOnlyForTies(score: Score, key: Key, nodes: seq<RingNode>)
    requires nodes != [] && DistinctIds(nodes)
    ensures (exists i :: IsSoleBest(score, key, nodes, i))
            <==> forall other: seq<RingNode> ::
                   multiset(other) == multiset(nodes) ==> Owner(score, key, other) == Owner(score, key, nodes)
  {
    if i :| IsSoleBest(score, key, nodes, i) {
      forall other: seq<RingNode> | multiset(other) == multiset(nodes)
        ensures Owner(score, key, other) == Owner(score, key, nodes)
      {
        SoleBestOwns(score, key, nodes, nodes, i);
        assert forall n :: n in other <==> n in multiset(other);
        assert forall n :: n in nodes <==> n in multiset(nodes);
        SoleBestOwns(score, key, nodes, other, i);
      }
    } else {
      TieMoves(score, key, nodes);
    }
  }

  ghost predicate SameNodes(a: seq<RingNode>, b: seq<RingNode>) {
    forall n :: n in a <==> n in b
  }

  lemma SoleBestOwns(score: Score, key: Key, nodes: seq<RingNode>, other: seq<RingNode>, i: nat)
    requires IsSoleBest(score, key, nodes, i) && SameNodes(nodes, other)
    ensures Owner(score, key, other) == Some(nodes[i].id)
  {
    assert nodes[i] in nodes;
    var k := FirstIndex(other, nodes[i]);
    forall j | 0 <= j < |other|
      ensures other[j] in nodes
    {
      assert other[j] in other;
    }
    BestIsFirst(ScoreAll(score, key, other), k);
  }

  lemma {:induction false} FirstIndex(s: seq<RingNode>, n: RingNode) returns (k: nat)
    requires n in s
    ensures k < |s| && s[k] == n && n !in s[..k]
  {
    if s[0] == n {
      k := 0;
    } else {
      var rest := FirstIndex(s[1..], n);
      k := rest + 1;
      assert s[..k] == [s[0]] + s[1..][..rest];
    }
  }

  lemma TieMoves(score: Score, key: Key, nodes: seq<RingNode>)
    requires nodes != [] && DistinctIds(nodes)
    requires !exists i :: IsSoleBest(score, key, nodes, i)
    ensures exists other: seq<RingNode> ::
              multiset(other) == multiset(nodes) && Owner(score, key, other) != Owner(score, key, nodes)
  {
    var s := ScoreAll(score, key, nodes);
    var i := SomeBest(s);
    BestIsFirst(s, i);
    assert !IsSoleBest(score, key, nodes, i);
    var n :| n in nodes && n != nodes[i] && ScoreOf(score, key, n) >= ScoreOf(score, key, nodes[i]);
    var j :| 0 <= j < |nodes| && nodes[j] == n;
    assert forall k :: 0 <= k < |nodes| ==> ScoreOf(score, key, nodes[k]) == s[k].score <= s[i].score;
    var other := MoveToFront(nodes, j);
    TopOwnsAtFront(score, key, other, n);
  }

  lemma MoveToFront(nodes: seq<RingNode>, j: nat) returns (other: seq<RingNode>)
    requires j < |nodes|
    ensures multiset(other) == multiset(nodes)
    ensures other != [] && other[0] == nodes[j] && forall m :: m in other ==> m in nodes
  {
    other := [nodes[j]] + nodes[..j] + nodes[j + 1..];
    assert nodes == nodes[..j] + [nodes[j]] + nodes[j + 1..];
  }

  lemma TopOwnsAtFront(score: Score, key: Key, nodes: seq<RingNode>, n: RingNode)
    requires nodes != [] && nodes[0] == n
    requires forall m :: m in nodes ==> ScoreOf(score, key, m) <= ScoreOf(score, key, n)
    ensures Owner(score, key, nodes) == Some(n.id)
  {
    forall k | 0 <= k < |nodes|
      ensures ScoreOf(score, key, nodes[k]) <= ScoreOf(score, key, n)
    {
      assert nodes[k] in nodes;
    }
    BestIsFirst(ScoreAll(score, key, nodes), 0);
  }

  function WithoutNode(nodes: seq<RingNode>, x: Id): seq<RingNode> {
    if nodes == [] then []
    else (if nodes[0].id == x then [] else [nodes[0]]) + WithoutNode(nodes[1..], x)
  }

  lemma {:induction false} ScoreWithout(score: Score, key: Key, nodes: seq<RingNode>, x: Id)
    ensures ScoreAll(score, key, WithoutNode(nodes, x)) == Without(ScoreAll(score, key, nodes), x)
  {
    if nodes != [] {
      ScoreWithout(score, key, nodes[1..], x);
      assert ScoreAll(score, key, nodes)[1..] == ScoreAll(score, key, nodes[1..]);
      var rest := WithoutNode(nodes[1..], x);
      if nodes[0].id != x {
        assert ScoreAll(score, key, [nodes[0]] + rest) == [ScoreAll(score, key, nodes)[0]] + ScoreAll(score, key, rest);
      } else {
        assert [] + rest == rest;
      }
    }
  }

  /** The ranking over a ring without `x` is the full ranking with `x` taken out, ties included. */
  lemma RankingWithout(score: Score, key: Key, nodes: seq<RingNode>, x: Id)
    ensures Ranking(score, key, WithoutNode(nodes, x)) == Without(Ranking(score, key, nodes), x)
  {
    ScoreWithout(score, key, nodes, x);
    SortCommutesWithRemoval(ScoreAll(score, key, nodes), x);
  }

  /**
   Minimal disruption: if two rings differ only in node `x` (added, removed or re-weighted), a key changes hands
   only from or to `x`.
   */
  lemma OnlyKeysOfXMove(score: Score, key: Key, a: seq<RingNode>, b: seq<RingNode>, x: Id)
    requires WithoutNode(a, x) == WithoutNode(b, x)
    ensures || Owner(score, key, a) == Owner(score, key, b)
            || Owner(score, key, a) == Some(x)
            || Owner(score, key, b) == Some(x)
  {
    RankingWithout(score, key, a, x);
    RankingWithout(score, key, b, x);
    assert a != [] && Owner(score, key, a) != Some(x) ==>
             Without(Ranking(score, key, a), x)[0].id == Owner(score, key, a).value;
    assert b != [] && Owner(score, key, b) != Some(x) ==>
             Without(Ranking(score, key, b), x)[0].id == Owner(score, key, b).value;
  }

  /** Removing `x` leaves every key it did not own where it was. */
  lemma RemovalMovesOnlyOwnKeys(score: Score, key: Key, nodes: seq<RingNode>, x: Id)
    requires Owner(score, key, nodes) != Some(x)
    ensures Owner(score, key, WithoutNode(nodes, x)) == Owner(score, key, nodes)
  {
    RankingWithout(score, key, nodes, x);
  }

  // ---- The ring as an object ----

  /** `Map.set`: a known id keeps its place, a new one goes last. */
  function Put(nodes: seq<RingNode>, n: RingNode): seq<RingNode> {
    if nodes == [] then [n]
    else if nodes[0].id == n.id then [n] + nodes[1..]
    else [nodes[0]] + Put(nodes[1..], n)
  }

  /** The ring as a map from id to weight. */
  function Weights(nodes: seq<RingNode>): map<Id, real> {
    if nodes == [] then map[] else Weights(nodes[1..])[nodes[0].id := nodes[0].weight]
  }

  lemma {:induction false} WeightsAreNodes(nodes: seq<RingNode>, n: RingNode)
    requires DistinctIds(nodes)
    ensures n in nodes <==> n.id in Weights(nodes) && Weights(nodes)[n.id] == n.weight
    ensures n.id in Weights(nodes) <==> exists m :: m in nodes && m.id == n.id
  {
    if nodes != [] {
      WeightsAreNodes(nodes[1..], n);
      assert nodes == [nodes[0]] + nodes[1..];
    }
  }

  /**
   Two rings holding the same ids at the same weights name the same owner, whatever their history, unless the top
   ties.
   */
  lemma RingsWithSameWeightsAgree(score: Score, key: Key, a: seq<RingNode>, b: seq<RingNode>, i: nat)
    requires DistinctIds(a) && DistinctIds(b) && Weights(a) == Weights(b) && IsSoleBest(score, key, a, i)
    ensures Owner(score, key, a) == Owner(score, key, b)
  {
    forall n
      ensures n in a <==> n in b
    {
      WeightsAreNodes(a, n);
      WeightsAreNodes(b, n);
    }
    SoleBestOwns(score, key, a, a, i);
    SoleBestOwns(score, key, a, b, i);
  }

  /** The owner is on the ring and nobody on the ring scores higher. */
  lemma OwnerScoresHighest(score: Score, key: Key, nodes: seq<RingNode>)
    requires DistinctIds(nodes) && nodes != []
    ensures var owner := Owner(score, key, nodes).value;
            owner in Weights(nodes)
            && forall id :: id in Weights(nodes) ==>
                 score(key, id, Weights(nodes)[id]) <= score(key, owner, Weights(nodes)[owner])
  {
    var s := ScoreAll(score, key, nodes);
    var i := SomeBest(s);
    BestIsFirst(s, i);
    WeightsAreNodes(nodes, nodes[i]);
    forall id | id in Weights(nodes)
      ensures score(key, id, Weights(nodes)[id]) <= s[i].score
    {
      var n := RingNode(id, Weights(nodes)[id]);
      WeightsAreNodes(nodes, n);
      var j :| 0 <= j < |nodes| && nodes[j] == n;
      assert s[j].score <= s[i].score;
    }
  }

  lemma {:induction false} PutMembers(nodes: seq<RingNode>, n: RingNode)
    ensures forall m :: m in Put(nodes, n) ==> m == n || m in nodes
  {
    if nodes != [] && nodes[0].id != n.id {
      PutMembers(nodes[1..], n);
    }
  }

  lemma {:induction false} PutKeepsDistinct(nodes: seq<RingNode>, n: RingNode)
    requires DistinctIds(nodes)
    ensures DistinctIds(Put(nodes, n))
  {
    if nodes != [] && nodes[0].id != n.id {
      var rest := Put(nodes[1..], n);
      PutKeepsDistinct(nodes[1..], n);
      PutMembers(nodes[1..], n);
      forall j | 0 <= j < |rest|
        ensures rest[j].id != nodes[0].id
      {
        assert rest[j] == n || rest[j] in nodes[1..];
      }
    }
  }

  lemma {:induction false} PutIsUpdate(nodes: seq<RingNode>, n: RingNode)
    ensures Weights(Put(nodes, n)) == Weights(nodes)[n.id := n.weight]
    ensures WithoutNode(Put(nodes, n), n.id) == WithoutNode(nodes, n.id)
  {
    if nodes == [] {
      assert [n][1..] == [];
    } else if nodes[0].id == n.id {
      assert ([n] + nodes[1..])[1..] == nodes[1..];
    } else {
      PutIsUpdate(nodes[1..], n);
      assert ([nodes[0]] + Put(nodes[1..], n))[1..] == Put(nodes[1..], n);
    }
  }

  lemma {:induction false} WithoutKeepsOthers(nodes: seq<RingNode>, x: Id)
    ensures forall m :: m in WithoutNode(nodes, x) <==> m in nodes && m.id != x
  {
    if nodes != [] {
      WithoutKeepsOthers(nodes[1..], x);
      assert nodes == [nodes[0]] + nodes[1..];
    }
  }

  lemma {:induction false} WithoutKeepsDistinct(nodes: seq<RingNode>, x: Id)
    requires DistinctIds(nodes)
    ensures DistinctIds(WithoutNode(nodes, x))
  {
    if nodes != [] {
      var rest := WithoutNode(nodes[1..], x);
      WithoutKeepsDistinct(nodes[1..], x);
      WithoutKeepsOthers(nodes[1..], x);
      forall j | 0 <= j < |rest|
        ensures rest[j].id != nodes[0].id
      {
        assert rest[j] in nodes[1..];
      }
    }
  }

  lemma {:induction false} WithoutIsRemoval(nodes: seq<RingNode>, x: Id)
    ensures Weights(WithoutNode(nodes, x)) == Weights(nodes) - {x}
  {
    if nodes != [] {
      var head, rest := nodes[0], WithoutNode(nodes[1..], x);
      WithoutIsRemoval(nodes[1..], x);
      assert WithoutNode(nodes, x) == if head.id == x then rest else [head] + rest;
      assert ([head] + rest)[1..] == rest;
      RemovalAfterUpdate(Weights(nodes[1..]), head.id, head.weight, x);
    }
  }

  lemma RemovalAfterUpdate(m: map<Id, real>, k: Id, v: real, x: Id)
    ensures m[k := v] - {x} == if k == x then m - {x} else (m - {x})[k := v]
  {
  }

  datatype AddResult = Ok | BadWeight

  class HashRing {
    const score: Score
    var nodes: seq<RingNode>

    ghost predicate Valid() reads this {
      DistinctIds(nodes) && forall n :: n in nodes ==> n.weight > 0.0
    }

    constructor (score: Score)
      ensures Valid() && this.score == score && nodes == []
    {
      this.score := score;
      nodes := [];
    }

    method Add(n: RingNode) returns (r: AddResult)
      requires Valid()
      modifies this
      ensures Valid() && (r == BadWeight <==> n.weight <= 0.0)
      ensures nodes == if n.weight <= 0.0 then old(nodes) else Put(old(nodes), n)
      ensures r == Ok ==> Weights(nodes) == Weights(old(nodes))[n.id := n.weight]
    {
      if n.weight <= 0.0 {
        return BadWeight;
      }
      PutIsUpdate(nodes, n);
      PutMembers(nodes, n);
      PutKeepsDistinct(nodes, n);
      nodes := Put(nodes, n);
      return Ok;
    }

    method Remove(id: Id) returns (had: bool)
      requires Valid()
      modifies this
      ensures Valid() && had == (id in Weights(old(nodes)))
      ensures nodes == WithoutNode(old(nodes), id) && Weights(nodes) == Weights(old(nodes)) - {id}
    {
      WithoutIsRemoval(nodes, id);
      WithoutKeepsDistinct(nodes, id);
      WithoutKeepsOthers(nodes, id);
      had := id in Weights(nodes);
      nodes := WithoutNode(nodes, id);
    }

    method Get(key: Key) returns (best: Option<Id>)
      ensures best == Owner(score, key, nodes)
    {
      best := None;
      var bestScore := 0.0;
      ghost var at := 0;
      ghost var s := ScoreAll(score, key, nodes);
      for i := 0 to |nodes|
        invariant best.None? <==> i == 0
        invariant best.Some? ==> IsBest(s[..i], at) && best.value == s[at].id && bestScore == s[at].score
      {
        var sc := score(key, nodes[i].id, nodes[i].weight);
        if best.None? || sc > bestScore {
          bestScore := sc;
          best := Some(nodes[i].id);
          at := i;
        }
      }
      if nodes != [] {
        assert s[..|nodes|] == s;
        BestIsFirst(s, at);
      }
    }

    method GetN(key: Key, n: int) returns (ids: seq<Id>)
      ensures ids == Ids(Ranking(score, key, nodes))[..if n <= 0 then 0 else Min(n, |nodes|)]
    {
      if n <= 0 || |nodes| == 0 {
        return [];
      }
      var scored: seq<Scored> := [];
      for i := 0 to |nodes|
        invariant scored == ScoreAll(score, key, nodes)[..i]
      {
        scored := scored + [Scored(nodes[i].id, score(key, nodes[i].id, nodes[i].weight))];
      }
      assert scored == ScoreAll(score, key, nodes);
      scored := SortDescending(scored);
      ids := Ids(scored)[..Min(n, |scored|)];
    }
  }
}
