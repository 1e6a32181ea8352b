/** The sharded store read as one flat graph: every query agrees with the flat map, and moving
    generations around does not show. */
module Queries {
  import opened Seqs
  import opened GraphModel
  import opened ShardSpec
  import opened StoreSpec
  import opened Routing
  import opened FlatGraph

  /** All live edges, in the order the generations are enumerated. */
  function Live(s: StoreState): seq<Edge> {
    LiveIn(Order(s), s.shards)
  }

  function GetEdge(s: StoreState, id: string): Option<Edge> {
    match Locate(Order(s), s.shards, id)
    case None => None
    case Some(i) => Some(Find(s.shards[i].live, id))
  }

  function EdgesFrom(s: StoreState, v: string): seq<Edge> {
    Filter(Live(s), FromIs(v))
  }

  function EdgesTo(s: StoreState, v: string): seq<Edge> {
    Filter(Live(s), ToIs(v))
  }

  function EdgeCount(s: StoreState): nat {
    |Live(s)|
  }

  /** The non-empty per-generation groups of outgoing edges. */
  function EdgesFromByShard(shards: seq<ShardState>, v: string): map<nat, seq<Edge>> {
    map i: nat | i < |shards| && Filter(shards[i].live, FromIs(v)) != [] :: Filter(shards[i].live, FromIs(v))
  }

  lemma LiveInSnoc(order: seq<nat>, i: nat, shards: seq<ShardState>)
    ensures LiveIn(order + [i], shards) == LiveIn(order, shards) + (if i < |shards| then shards[i].live else [])
  {
    assert (order + [i])[..|order|] == order;
  }

  lemma {:induction false} LiveInConcat(a: seq<nat>, b: seq<nat>, shards: seq<ShardState>)
    ensures LiveIn(a + b, shards) == LiveIn(a, shards) + LiveIn(b, shards)
  {
    if |b| == 0 {
      assert a + b == a;
    } else {
      var init, last := b[..|b| - 1], b[|b| - 1];
      assert b == init + [last] && a + b == (a + init) + [last];
      LiveInConcat(a, init, shards);
      LiveInSnoc(a + init, last, shards);
      LiveInSnoc(init, last, shards);
    }
  }

  lemma {:induction false} LiveInMembers(order: seq<nat>, shards: seq<ShardState>)
    ensures forall e :: e in LiveIn(order, shards) <==> exists i :: i in order && i < |shards| && e in shards[i].live
  {
    if |order| > 0 {
      LiveInMembers(order[..|order| - 1], shards);
      assert order == order[..|order| - 1] + [order[|order| - 1]];
    }
  }

  lemma {:induction false} LiveInDistinct(order: seq<nat>, shards: seq<ShardState>)
    requires NoDup(order) && UniqueIds(shards)
    ensures DistinctIds(LiveIn(order, shards))
  {
    if |order| > 0 {
      var init, i := order[..|order| - 1], order[|order| - 1];
      LiveInDistinct(init, shards);
      LiveInMembers(init, shards);
      if i < |shards| {
        forall a, b | a in LiveIn(init, shards) && b in shards[i].live ensures a.id != b.id {
          var j :| j in init && j < |shards| && a in shards[j].live;
          assert HasId(shards[j].live, a.id) && HasId(shards[i].live, b.id);
        }
      }
    }
  }

  lemma {:induction false} PrefixNoDup(gens: seq<seq<nat>>, n: nat, count: nat)
    requires Enumerates(gens, count) && n <= |gens|
    ensures NoDup(Flatten(gens[..n]))
  {
    if n > 0 {
      PrefixNoDup(gens, n - 1, count);
      assert gens[..n][..n - 1] == gens[..n - 1];
      FlattenMembers(gens[..n - 1]);
      var head, last := Flatten(gens[..n - 1]), gens[n - 1];
      assert forall x :: x in last ==> x !in head;
      NoDupConcat(head, last);
    }
  }

  lemma EnumerationIsExact(cfg: Config, s: StoreState)
    requires Routed(cfg, s)
    ensures NoDup(Order(s)) && forall i: nat :: i in Order(s) <==> i < |s.shards|
  {
    PrefixNoDup(s.gens, |s.gens|, |s.shards|);
    assert s.gens[..|s.gens|] == s.gens;
    FlattenMembers(s.gens);
    forall i: nat | i < |s.shards| ensures i in Order(s) {
      OrderCovers(cfg, s, i);
    }
  }

  /** The enumeration lists every live edge exactly once. */
  lemma LiveIsGraph(cfg: Config, s: StoreState)
    requires Routed(cfg, s) && UniqueIds(s.shards)
    ensures DistinctIds(Live(s)) && NoDup(Live(s))
    ensures forall e :: e in Live(s) <==> e in EdgeSet(s.shards)
  {
    PrefixNoDup(s.gens, |s.gens|, |s.shards|);
    assert s.gens[..|s.gens|] == s.gens;
    LiveInDistinct(Order(s), s.shards);
    DistinctNoDup(Live(s));
    LiveInMembers(Order(s), s.shards);
    forall e | e in EdgeSet(s.shards) ensures e in Live(s) {
      var i :| 0 <= i < |s.shards| && e in s.shards[i].live;
      OrderCovers(cfg, s, i);
    }
  }

  lemma GetEdgeAgrees(cfg: Config, s: StoreState, id: string)
    requires Routed(cfg, s) && UniqueIds(s.shards)
    ensures GetEdge(s, id) == if id in Flat(s.shards) then Some(Flat(s.shards)[id]) else None
  {
    var found := Locate(Order(s), s.shards, id);
    if found.Some? {
      var e := Find(s.shards[found.value].live, id);
      assert e in EdgeSet(s.shards);
      SameIdSameEdge(s.shards, e, Flat(s.shards)[id]);
    } else if id in Flat(s.shards) {
      var e := Flat(s.shards)[id];
      var i :| 0 <= i < |s.shards| && e in s.shards[i].live;
      OrderCovers(cfg, s, i);
      assert HasId(s.shards[i].live, id);
    }
  }

  lemma CountAgrees(cfg: Config, s: StoreState)
    requires Routed(cfg, s) && UniqueIds(s.shards)
    ensures EdgeCount(s) == |Flat(s.shards)| == |EdgeSet(s.shards)|
  {
    LiveIsGraph(cfg, s);
    var ids := Ids(Live(s));
    DistinctNoDup(Live(s));
    NoDupCount(ids);
    NoDupCount(Live(s));
    assert (set e | e in Live(s)) == EdgeSet(s.shards);
    assert Flat(s.shards).Keys == set id | id in ids by {
      forall id | id in Flat(s.shards) ensures id in ids {
        var k :| 0 <= k < |Live(s)| && Live(s)[k] == Flat(s.shards)[id];
        assert ids[k] == id;
      }
    }
    assert |Flat(s.shards)| == |Flat(s.shards).Keys|;
  }

  lemma FlatItems(shards: seq<ShardState>)
    requires UniqueIds(shards)
    ensures forall e :: e in EdgeSet(shards) <==> (e.id, e) in Flat(shards).Items
    ensures forall x :: x in Flat(shards).Items ==> x == (x.1.id, x.1) && x.1 in EdgeSet(shards)
  {
  }

  /** The store refines one flat map from id to edge. */
  lemma QueriesAgreeWithFlatMap(cfg: Config, s: StoreState, id: string, v: string)
    requires Routed(cfg, s) && UniqueIds(s.shards)
    ensures GetEdge(s, id) == if id in Flat(s.shards) then Some(Flat(s.shards)[id]) else None
    ensures NoDup(EdgesFrom(s, v))
            && (set e | e in EdgesFrom(s, v)) == (set x | x in Flat(s.shards).Items && x.1.from == v :: x.1)
    ensures NoDup(EdgesTo(s, v))
            && (set e | e in EdgesTo(s, v)) == (set x | x in Flat(s.shards).Items && x.1.to == v :: x.1)
    ensures EdgeCount(s) == |Flat(s.shards)|
  {
    LiveIsGraph(cfg, s);
    FilterMembers(Live(s), FromIs(v));
    FilterMembers(Live(s), ToIs(v));
    FilterNoDup(Live(s), FromIs(v));
    FilterNoDup(Live(s), ToIs(v));
    GetEdgeAgrees(cfg, s, id);
    CountAgrees(cfg, s);
    FlatItems(s.shards);
  }

  /** The groups by generation are disjoint and together hold exactly the outgoing edges. */
  lemma GroupsPartitionEdges(s: StoreState, v: string)
    requires UniqueIds(s.shards)
    ensures forall e :: e in EdgeSet(s.shards) && e.from == v
              <==> exists i :: i in EdgesFromByShard(s.shards, v) && e in EdgesFromByShard(s.shards, v)[i]
    ensures forall i, j, e: Edge ::
              (i in EdgesFromByShard(s.shards, v) && j in EdgesFromByShard(s.shards, v)
               && e in EdgesFromByShard(s.shards, v)[i] && e in EdgesFromByShard(s.shards, v)[j]) ==> i == j
    ensures forall i :: i in EdgesFromByShard(s.shards, v) ==> NoDup(EdgesFromByShard(s.shards, v)[i])
  {
    var groups := EdgesFromByShard(s.shards, v);
    forall i: nat | i < |s.shards|
      ensures forall e :: e in Filter(s.shards[i].live, FromIs(v)) <==> e in s.shards[i].live && e.from == v
      ensures NoDup(Filter(s.shards[i].live, FromIs(v)))
    {
      FilterMembers(s.shards[i].live, FromIs(v));
      FilterDistinct(s.shards[i].live, FromIs(v));
      DistinctNoDup(Filter(s.shards[i].live, FromIs(v)));
    }
    forall e | e in EdgeSet(s.shards) && e.from == v ensures exists i :: i in groups && e in groups[i] {
      var i :| 0 <= i < |s.shards| && e in s.shards[i].live;
      assert e in Filter(s.shards[i].live, FromIs(v));
      assert i in groups && e in groups[i];
    }
    forall i, j, e: Edge | i in groups && j in groups && e in groups[i] && e in groups[j] ensures i == j {
      assert HasId(s.shards[i].live, e.id) && HasId(s.shards[j].live, e.id);
    }
  }

  lemma OutgoingMembers(sh: ShardState, v: string)
    ensures Filter(sh.live, FromIs(v)) != [] <==> exists e :: e in sh.live && e.from == v
    ensures forall e :: e in Filter(sh.live, FromIs(v)) <==> e in sh.live && e.from == v
  {
    FilterMembers(sh.live, FromIs(v));
    if Filter(sh.live, FromIs(v)) != [] {
      assert Filter(sh.live, FromIs(v))[0] in Filter(sh.live, FromIs(v));
    }
  }

  /** There is a group for each generation that holds an outgoing edge, and it holds that generation's ones. */
  lemma GroupsAreGenerations(shards: seq<ShardState>, v: string, i: nat)
    ensures i in EdgesFromByShard(shards, v) <==>
            i < |shards| && exists e :: e in shards[i].live && e.from == v
    ensures i in EdgesFromByShard(shards, v) ==>
              forall e :: e in EdgesFromByShard(shards, v)[i] <==> e in shards[i].live && e.from == v
  {
    if i < |shards| {
      OutgoingMembers(shards[i], v);
    }
  }

  lemma {:induction false} SameLive(order: seq<nat>, shards: seq<ShardState>, after: seq<ShardState>)
    requires |shards| <= |after|
    requires forall i :: 0 <= i < |shards| ==> after[i].live == shards[i].live
    requires forall i :: |shards| <= i < |after| ==> after[i].live == []
    ensures LiveIn(order, after) == LiveIn(order, shards)
  {
    if |order| > 0 {
      SameLive(order[..|order| - 1], shards, after);
    }
  }

  lemma FlattenTake(gens: seq<seq<nat>>, n: nat, shards: seq<ShardState>)
    requires 0 < n <= |gens|
    ensures LiveIn(Flatten(gens[..n]), shards) == LiveIn(Flatten(gens[..n - 1]), shards) + LiveIn(gens[n - 1], shards)
  {
    assert gens[..n] == gens[..n - 1] + [gens[n - 1]];
    FlattenSnoc(gens[..n - 1], gens[n - 1]);
    LiveInConcat(Flatten(gens[..n - 1]), gens[n - 1], shards);
  }

  lemma EmptyTail(ids: seq<nat>, newest: nat, shards: seq<ShardState>)
    requires newest < |shards| && shards[newest].live == []
    ensures LiveIn(ids + [newest], shards) == LiveIn(ids, shards)
  {
    LiveInSnoc(ids, newest, shards);
  }

  lemma {:induction false} RotatedLive(gens: seq<seq<nat>>, n: nat, bucket: nat, newest: nat, shards: seq<ShardState>)
    requires n <= |gens| && bucket < |gens| && newest < |shards| && shards[newest].live == []
    ensures LiveIn(Flatten(gens[bucket := gens[bucket] + [newest]][..n]), shards) == LiveIn(Flatten(gens[..n]), shards)
  {
    var after := gens[bucket := gens[bucket] + [newest]];
    if n > 0 {
      RotatedLive(gens, n - 1, bucket, newest, shards);
      FlattenTake(after, n, shards);
      FlattenTake(gens, n, shards);
      EmptyTail(gens[bucket], newest, shards);
    }
  }

  lemma EdgeSetByLive(shards: seq<ShardState>, after: seq<ShardState>)
    requires |shards| <= |after|
    requires forall i :: 0 <= i < |shards| ==> after[i].live == shards[i].live
    requires forall i :: |shards| <= i < |after| ==> after[i].live == []
    ensures EdgeSet(after) == EdgeSet(shards)
    ensures UniqueIds(shards) ==> UniqueIds(after)
  {
    forall i, e | 0 <= i < |shards| && e in shards[i].live ensures e in EdgeSet(after) {
      assert e in after[i].live;
    }
    forall i, id | 0 <= i < |after| && HasId(after[i].live, id) ensures i < |shards| && HasId(shards[i].live, id) {
    }
  }

  /** Rotating and archiving a bucket change no answer: the same edges, in the same order. */
  lemma GenerationsDoNotShow(cfg: Config, s: StoreState, bucket: int)
    requires Routed(cfg, s)
    ensures Live(RotateBucket(cfg, s, bucket).state) == Live(s)
    ensures Live(ArchiveBucket(s, bucket)) == Live(s)
    ensures EdgeSet(RotateBucket(cfg, s, bucket).state.shards) == EdgeSet(s.shards)
    ensures EdgeSet(ArchiveBucket(s, bucket).shards) == EdgeSet(s.shards)
    ensures UniqueIds(s.shards) ==> UniqueIds(RotateBucket(cfg, s, bucket).state.shards)
                                    && UniqueIds(ArchiveBucket(s, bucket).shards)
  {
    var r := RotateBucket(cfg, s, bucket).state;
    if r != s {
      SameLive(Order(s), s.shards, r.shards);
      RotatedLive(s.gens, |s.gens|, bucket, |s.shards|, r.shards);
      assert s.gens[..|s.gens|] == s.gens && r.gens[..|r.gens|] == r.gens;
      EdgeSetByLive(s.shards, r.shards);
    }
    var a := ArchiveBucket(s, bucket);
    SameLive(Order(s), s.shards, a.shards);
    EdgeSetByLive(s.shards, a.shards);
  }

  /** The part of it that speaks of edges alone. */
  lemma GenerationsKeepEdges(cfg: Config, s: StoreState, bucket: int)
    requires Routed(cfg, s)
    ensures EdgeSet(RotateBucket(cfg, s, bucket).state.shards) == EdgeSet(s.shards)
    ensures EdgeSet(ArchiveBucket(s, bucket).shards) == EdgeSet(s.shards)
    ensures UniqueIds(s.shards) ==> UniqueIds(RotateBucket(cfg, s, bucket).state.shards)
                                    && UniqueIds(ArchiveBucket(s, bucket).shards)
  {
    GenerationsDoNotShow(cfg, s, bucket);
  }
}
