/** What a walk finds does not depend on the order in which the shard groups are visited: the end vertices
    and their depths are a function of the graph, of where its edges are stored, of the start vertex
    and of the limit. */
module WalkLayers {
  import opened GraphModel
  import opened ShardSpec
  import opened StoreSpec
  import opened WalkSpec
  import opened WaveSpec
  import opened WalkTheory

  /** A question to the walker. */
  datatype Tour = Tour(shards: seq<ShardState>, home: nat, start: string, maxDepth: int)

  /** Vertex v lies d hops from the start inside the start shard's own subgraph, within the limit. */
  ghost predicate AtHome(q: Tour, v: string, d: nat) {
    d <= Limit(q.maxDepth) && IsDistance(HomeSet(q.shards, q.home), q.start, v, d)
  }

  /** Wave g may reach v at depth d: wave 0 by a hop out of the start shard, any later one by any hop out
      of what the wave before found. */
  ghost predicate OnOffer(q: Tour, g: nat, v: string, d: nat)
    decreases g, 0
  {
    && 0 < d <= Limit(q.maxDepth)
    && (if g == 0 then exists h, e :: AwayEdge(q.shards, q.home, h, e) && e.to == v && AtHome(q, e.from, d - 1)
        else exists e :: e in EdgeSet(q.shards) && e.to == v && InLayer(q, g - 1, e.from, d - 1))
  }

  /** Wave g finds every vertex no earlier wave found, at the least depth it is offered at. */
  ghost predicate InLayer(q: Tour, g: nat, v: string, d: nat)
    decreases g, 1
  {
    OnOffer(q, g, v, d) && !FoundBefore(q, g, v) && forall k: nat :: OnOffer(q, g, v, k) ==> d <= k
  }

  ghost predicate FoundBefore(q: Tour, g: nat, v: string)
    decreases g, 0
  {
    if g == 0 then exists d: nat :: AtHome(q, v, d)
    else
      var h := g - 1;
      FoundBefore(q, h, v) || exists d: nat :: InLayer(q, h, v, d)
  }

  ghost predicate Away(q: Tour, v: string, d: nat) {
    exists g: nat :: InLayer(q, g, v, d)
  }

  /** Vertex v is found at depth d. */
  ghost predicate Finds(q: Tour, v: string, d: nat) {
    AtHome(q, v, d) || Away(q, v, d)
  }

  // Phase 1 finds what is at home.

  ghost predicate ItemAt(items: seq<FrontierItem>, v: string, d: nat) {
    exists i :: 0 <= i < |items| && items[i].vertex == v && items[i].depth == d
  }

  lemma ItemIsAtHome(q: Tour, t: HomeTrace, i: nat)
    requires HomeWalk(q.shards, q.home, q.start, q.maxDepth, t) && i < |t.items|
    ensures AtHome(q, t.items[i].vertex, t.items[i].depth)
  {
    if i > 0 { assert StepAt(q.shards, q.home, q.maxDepth, t.items, t.parents, i); }
    ItemDistance(q.shards, q.home, q.start, q.maxDepth, t, i);
  }

  lemma DistanceIsLeast(es: set<Edge>, start: string, v: string, d: nat, n: nat)
    requires IsDistance(es, start, v, d) && v in Within(es, start, n)
    ensures d <= n
  {
    if n < d {
      WithinGrows(es, start, n, d - 1);
    }
  }

  lemma HomeIsItem(q: Tour, t: HomeTrace, v: string, d: nat)
    requires HomeWalk(q.shards, q.home, q.start, q.maxDepth, t) && AtHome(q, v, d)
    ensures ItemAt(t.items, v, d)
  {
    var k := WithinIsQueued(q.shards, q.home, q.start, q.maxDepth, t, d, v);
    ItemsAreWithin(q.shards, q.home, q.start, q.maxDepth, t.items, t.parents, k);
    DistanceIsLeast(HomeSet(q.shards, q.home), q.start, v, d, t.items[k].depth);
  }

  ghost predicate SameHome(q: Tour, items: seq<FrontierItem>) {
    forall v, d: nat :: AtHome(q, v, d) <==> ItemAt(items, v, d)
  }

  lemma ItemsAreHome(q: Tour, t: HomeTrace)
    requires HomeWalk(q.shards, q.home, q.start, q.maxDepth, t)
    ensures SameHome(q, t.items)
  {
    forall v, d: nat | ItemAt(t.items, v, d) ensures AtHome(q, v, d) {
      var i :| 0 <= i < |t.items| && t.items[i].vertex == v && t.items[i].depth == d;
      ItemIsAtHome(q, t, i);
    }
    forall v, d: nat | AtHome(q, v, d) ensures ItemAt(t.items, v, d) {
      HomeIsItem(q, t, v, d);
    }
  }

  lemma HomeNames(q: Tour, t: HomeTrace, v: string)
    requires HomeWalk(q.shards, q.home, q.start, q.maxDepth, t)
    ensures FoundBefore(q, 0, v) <==> v in ItemVertices(t.items)
  {
    if v in ItemVertices(t.items) {
      var m :| m in t.items && m.vertex == v;
      var i :| 0 <= i < |t.items| && t.items[i] == m;
      ItemIsAtHome(q, t, i);
    }
    if d: nat :| AtHome(q, v, d) {
      HomeIsItem(q, t, v, d);
    }
  }

  // The merger finds the layers, one per wave.

  ghost predicate DrainedAt(drained: seq<Continuation>, gens: seq<nat>, g: nat, v: string, d: nat)
    requires |gens| == |drained|
  {
    exists i :: 0 <= i < |drained| && gens[i] == g && drained[i].vertex == v && drained[i].depth == d
  }

  ghost predicate DrainedEarlier(drained: seq<Continuation>, gens: seq<nat>, g: nat, v: string)
    requires |gens| == |drained|
  {
    exists i :: 0 <= i < |drained| && gens[i] < g && drained[i].vertex == v
  }

  /** A finished walk with the wave of everything it drained. */
  ghost predicate Finished(q: Tour, t: HomeTrace, drained: seq<Continuation>, gens: seq<nat>) {
    && HomeWalk(q.shards, q.home, q.start, q.maxDepth, t)
    && DistinctContinuations(drained) && (forall c :: c in drained ==> c.vertex !in ItemVertices(t.items))
    && |gens| == |drained|
    && Offered(EdgeSet(q.shards), q.maxDepth, t.conts, drained, gens, drained, gens)
    && AllSettled(EdgeSet(q.shards), q.maxDepth, t.conts, ItemVertices(t.items), drained, gens, [], [])
  }

  ghost predicate SameOffers(q: Tour, conts: seq<Continuation>, drained: seq<Continuation>, gens: seq<nat>, g: nat)
    requires |gens| == |drained|
  {
    forall v, d: nat :: OnOffer(q, g, v, d) <==> Offers(EdgeSet(q.shards), q.maxDepth, conts, drained, gens, g, v, d)
  }

  ghost predicate SameLayer(q: Tour, drained: seq<Continuation>, gens: seq<nat>, g: nat)
    requires |gens| == |drained|
  {
    forall v, d: nat :: InLayer(q, g, v, d) <==> DrainedAt(drained, gens, g, v, d)
  }

  ghost predicate SameBefore(q: Tour, marked: set<string>, drained: seq<Continuation>, gens: seq<nat>, g: nat)
    requires |gens| == |drained|
  {
    forall v :: FoundBefore(q, g, v) <==> v in marked || DrainedEarlier(drained, gens, g, v)
  }

  lemma OfferIsHandedOver(q: Tour, t: HomeTrace, v: string, d: nat)
    requires SameHome(q, t.items) && AllHandedOff(q.shards, q.home, q.maxDepth, t.items, |t.items|, t.conts)
             && OnOffer(q, 0, v, d)
    ensures exists c :: c in t.conts && c.vertex == v && c.depth == d
  {
    var h, e :| AwayEdge(q.shards, q.home, h, e) && e.to == v && AtHome(q, e.from, d - 1);
    assert ItemAt(t.items, e.from, d - 1);
    var i :| 0 <= i < |t.items| && t.items[i].vertex == e.from && t.items[i].depth == d - 1;
    assert HandsOver(q.shards, q.home, q.maxDepth, t.items[i], t.conts);
    assert CrossHop(t.items[i], e, h) in t.conts;
  }

  lemma HandedOverIsOffer(q: Tour, t: HomeTrace, c: Continuation)
    requires SameHome(q, t.items) && CameFrom(q.shards, q.home, q.maxDepth, t.items, |t.items|, c)
    ensures OnOffer(q, 0, c.vertex, c.depth)
  {
    var i, h, e :| 0 <= i < |t.items| && AwayEdge(q.shards, q.home, h, e) && e.from == t.items[i].vertex
        && t.items[i].depth < q.maxDepth
                   && c == CrossHop(t.items[i], e, h);
    assert ItemAt(t.items, e.from, c.depth - 1);
    assert AtHome(q, e.from, c.depth - 1);
  }

  lemma FirstOffers(q: Tour, t: HomeTrace, drained: seq<Continuation>, gens: seq<nat>)
    requires SameHome(q, t.items) && HandedOff(q.shards, q.home, q.maxDepth, t.items, |t.items|, t.conts)
             && |gens| == |drained|
    ensures SameOffers(q, t.conts, drained, gens, 0)
  {
    forall v, d: nat | OnOffer(q, 0, v, d)
      ensures Offers(EdgeSet(q.shards), q.maxDepth, t.conts, drained, gens, 0, v, d)
    {
      OfferIsHandedOver(q, t, v, d);
    }
    forall v, d: nat | Offers(EdgeSet(q.shards), q.maxDepth, t.conts, drained, gens, 0, v, d)
      ensures OnOffer(q, 0, v, d)
    {
      var c :| c in t.conts && c.vertex == v && c.depth == d;
      HandedOverIsOffer(q, t, c);
    }
  }

  lemma LaterOffers(q: Tour, conts: seq<Continuation>, drained: seq<Continuation>, gens: seq<nat>, g: nat)
    requires |gens| == |drained| && g > 0 && SameLayer(q, drained, gens, g - 1)
    ensures SameOffers(q, conts, drained, gens, g)
  {
    var es := EdgeSet(q.shards);
    forall v, d: nat | OnOffer(q, g, v, d) ensures Offers(es, q.maxDepth, conts, drained, gens, g, v, d) {
      var e :| e in es && e.to == v && InLayer(q, g - 1, e.from, d - 1);
      assert DrainedAt(drained, gens, g - 1, e.from, d - 1);
    }
    forall v, d: nat | Offers(es, q.maxDepth, conts, drained, gens, g, v, d) ensures OnOffer(q, g, v, d) {
      var j, e :| 0 <= j < |drained| && gens[j] == g - 1 && drained[j].depth < q.maxDepth && d == drained[j].depth + 1
                  && e in es && e.from == drained[j].vertex && e.to == v;
      assert DrainedAt(drained, gens, g - 1, e.from, d - 1);
      assert InLayer(q, g - 1, e.from, d - 1);
    }
  }

  /** What was drained in wave g is new, offered, and at the least depth on offer. */
  lemma DrainedIsNearest(q: Tour, t: HomeTrace, drained: seq<Continuation>, gens: seq<nat>, g: nat, i: nat)
    requires Finished(q, t, drained, gens) && SameOffers(q, t.conts, drained, gens, g)
    requires SameBefore(q, ItemVertices(t.items), drained, gens, g) && i < |drained| && gens[i] == g
    ensures InLayer(q, g, drained[i].vertex, drained[i].depth)
  {
    var v, d := drained[i].vertex, drained[i].depth;
    assert drained[i] in drained;
    assert Offers(EdgeSet(q.shards), q.maxDepth, t.conts, drained, gens, g, v, d);
    assert !DrainedEarlier(drained, gens, g, v);
    forall k: nat | OnOffer(q, g, v, k) ensures d <= k {
      assert Settled(ItemVertices(t.items), drained, gens, [], [], g, v, k);
      assert DrainedBy(drained, gens, g, v, k);
    }
  }

  lemma NearestIsDrained(q: Tour, t: HomeTrace, drained: seq<Continuation>, gens: seq<nat>, g: nat, v: string, d: nat)
    requires Finished(q, t, drained, gens) && SameOffers(q, t.conts, drained, gens, g)
    requires SameBefore(q, ItemVertices(t.items), drained, gens, g) && InLayer(q, g, v, d)
    ensures DrainedAt(drained, gens, g, v, d)
  {
    assert Settled(ItemVertices(t.items), drained, gens, [], [], g, v, d);
    assert DrainedBy(drained, gens, g, v, d);
    var i :| 0 <= i < |drained| && drained[i].vertex == v && NotAfter(gens[i], drained[i].depth, g, d);
    assert !DrainedEarlier(drained, gens, g, v);
    DrainedIsNearest(q, t, drained, gens, g, i);
  }

  lemma LayerFollows(q: Tour, t: HomeTrace, drained: seq<Continuation>, gens: seq<nat>, g: nat)
    requires Finished(q, t, drained, gens) && SameOffers(q, t.conts, drained, gens, g)
    requires SameBefore(q, ItemVertices(t.items), drained, gens, g)
    ensures SameLayer(q, drained, gens, g)
  {
    forall v, d: nat | DrainedAt(drained, gens, g, v, d) ensures InLayer(q, g, v, d) {
      var i :| 0 <= i < |drained| && gens[i] == g && drained[i].vertex == v && drained[i].depth == d;
      DrainedIsNearest(q, t, drained, gens, g, i);
    }
    forall v, d: nat | InLayer(q, g, v, d) ensures DrainedAt(drained, gens, g, v, d) {
      NearestIsDrained(q, t, drained, gens, g, v, d);
    }
  }

  lemma NothingEarlier(q: Tour, t: HomeTrace, drained: seq<Continuation>, gens: seq<nat>)
    requires HomeWalk(q.shards, q.home, q.start, q.maxDepth, t) && |gens| == |drained|
    ensures SameBefore(q, ItemVertices(t.items), drained, gens, 0)
  {
    forall v ensures FoundBefore(q, 0, v) <==> v in ItemVertices(t.items) {
      HomeNames(q, t, v);
    }
  }

  lemma BeforeGrows(q: Tour, marked: set<string>, drained: seq<Continuation>, gens: seq<nat>, g: nat)
    requires |gens| == |drained| && g > 0 && SameBefore(q, marked, drained, gens, g - 1)
             && SameLayer(q, drained, gens, g - 1)
    ensures SameBefore(q, marked, drained, gens, g)
  {
    var h := g - 1;
    forall v ensures FoundBefore(q, g, v) <==> v in marked || DrainedEarlier(drained, gens, g, v) {
      if d: nat :| InLayer(q, h, v, d) {
        assert DrainedAt(drained, gens, h, v, d);
      }
      if i :| 0 <= i < |drained| && gens[i] < g && drained[i].vertex == v {
        if gens[i] < h {
          assert DrainedEarlier(drained, gens, h, v);
        } else {
          assert DrainedAt(drained, gens, h, v, drained[i].depth);
        }
      }
    }
  }

  /** Wave g drains exactly layer g. */
  lemma {:induction false} LayersAreWaves(q: Tour, t: HomeTrace, drained: seq<Continuation>, gens: seq<nat>, g: nat)
    requires Finished(q, t, drained, gens)
    ensures SameBefore(q, ItemVertices(t.items), drained, gens, g) && SameLayer(q, drained, gens, g)
  {
    if g == 0 {
      ItemsAreHome(q, t);
      FirstOffers(q, t, drained, gens);
      NothingEarlier(q, t, drained, gens);
    } else {
      LayersAreWaves(q, t, drained, gens, g - 1);
      LaterOffers(q, t.conts, drained, gens, g);
      BeforeGrows(q, ItemVertices(t.items), drained, gens, g);
    }
    LayerFollows(q, t, drained, gens, g);
  }

  // The main results.

  ghost predicate Returned(out: seq<Path>, v: string, d: nat) {
    exists i :: 0 <= i < |out| && EndOf(out[i]) == v && out[i].depth == d
  }

  ghost predicate Drained(drained: seq<Continuation>, v: string, d: nat) {
    exists i :: 0 <= i < |drained| && drained[i].vertex == v && drained[i].depth == d
  }

  lemma ReturnedAre(items: seq<FrontierItem>, drained: seq<Continuation>, out: seq<Path>, v: string, d: nat)
    requires out == ItemPaths(items) + ContinuationPaths(drained)
    requires forall k :: 0 <= k < |items| ==> FitItem(items[k])
    requires forall k :: 0 <= k < |drained| ==> FitContinuation(drained[k])
    ensures Returned(out, v, d) <==> ItemAt(items, v, d) || Drained(drained, v, d)
  {
    var n := |items|;
    if i :| 0 <= i < |out| && EndOf(out[i]) == v && out[i].depth == d {
      if i < n {
        assert out[i] == ItemPath(items[i]) && FitItem(items[i]);
      } else {
        assert out[i] == ContinuationPath(drained[i - n]) && FitContinuation(drained[i - n]);
      }
    }
    if k :| 0 <= k < n && items[k].vertex == v && items[k].depth == d {
      assert out[k] == ItemPath(items[k]);
    }
    if k :| 0 <= k < |drained| && drained[k].vertex == v && drained[k].depth == d {
      assert out[n + k] == ContinuationPath(drained[k]);
    }
  }

  lemma LayerAt(q: Tour, t: HomeTrace, drained: seq<Continuation>, gens: seq<nat>, g: nat, v: string, d: nat)
    requires Finished(q, t, drained, gens)
    ensures InLayer(q, g, v, d) <==> DrainedAt(drained, gens, g, v, d)
  {
    LayersAreWaves(q, t, drained, gens, g);
  }

  lemma DrainedIsAway(q: Tour, t: HomeTrace, drained: seq<Continuation>, gens: seq<nat>, i: nat)
    requires Finished(q, t, drained, gens) && i < |drained|
    ensures Away(q, drained[i].vertex, drained[i].depth)
  {
    LayerAt(q, t, drained, gens, gens[i], drained[i].vertex, drained[i].depth);
  }

  lemma AwayIsDrained(q: Tour, t: HomeTrace, drained: seq<Continuation>, gens: seq<nat>, v: string, d: nat)
    requires Finished(q, t, drained, gens) && Away(q, v, d)
    ensures Drained(drained, v, d)
  {
    var g: nat :| InLayer(q, g, v, d);
    LayerAt(q, t, drained, gens, g, v, d);
  }

  lemma DrainedAreLayered(q: Tour, t: HomeTrace, drained: seq<Continuation>, gens: seq<nat>, v: string, d: nat)
    requires Finished(q, t, drained, gens)
    ensures Drained(drained, v, d) <==> Away(q, v, d)
  {
    if i :| 0 <= i < |drained| && drained[i].vertex == v && drained[i].depth == d {
      DrainedIsAway(q, t, drained, gens, i);
    }
    if Away(q, v, d) {
      AwayIsDrained(q, t, drained, gens, v, d);
    }
  }

  lemma WalkIsFinished(q: Tour, t: HomeTrace, drained: seq<Continuation>, out: seq<Path>, visited: set<string>)
    returns (gens: seq<nat>)
    requires Walked(q.shards, q.home, q.start, q.maxDepth, t, drained, out, visited)
    ensures Finished(q, t, drained, gens)
  {
    var waves: seq<nat>;
    gens, waves :| Waved(EdgeSet(q.shards), q.maxDepth, t.conts, ItemVertices(t.items), drained, gens, [], waves);
    assert waves == [];
  }

  lemma HomeAt(q: Tour, t: HomeTrace, v: string, d: nat)
    requires HomeWalk(q.shards, q.home, q.start, q.maxDepth, t)
    ensures AtHome(q, v, d) <==> ItemAt(t.items, v, d)
  {
    ItemsAreHome(q, t);
  }

  lemma WalkReturns(q: Tour, t: HomeTrace, drained: seq<Continuation>, out: seq<Path>, visited: set<string>, v: string,
                    d: nat)
    requires Walked(q.shards, q.home, q.start, q.maxDepth, t, drained, out, visited)
    ensures Returned(out, v, d) <==> ItemAt(t.items, v, d) || Drained(drained, v, d)
  {
    WalkFits(q.shards, q.home, q.start, q.maxDepth, t, drained, out, visited);
    ReturnedAre(t.items, drained, out, v, d);
  }

  /** A walk returns a path of depth d to v exactly when v is found at depth d at home or in a layer. */
  lemma WalkFindsExactly(q: Tour, t: HomeTrace, drained: seq<Continuation>, out: seq<Path>, visited: set<string>,
                         v: string, d: nat)
    requires Walked(q.shards, q.home, q.start, q.maxDepth, t, drained, out, visited)
    ensures Returned(out, v, d) <==> Finds(q, v, d)
  {
    var gens := WalkIsFinished(q, t, drained, out, visited);
    WalkReturns(q, t, drained, out, visited, v, d);
    DrainedAreLayered(q, t, drained, gens, v, d);
    HomeAt(q, t, v, d);
  }

  ghost predicate ReturnsExactly(q: Tour, out: seq<Path>) {
    forall v, d: nat :: Returned(out, v, d) <==> Finds(q, v, d)
  }

  lemma WalkHasDistinctEnds(q: Tour, t: HomeTrace, drained: seq<Continuation>, out: seq<Path>, visited: set<string>)
    requires Walked(q.shards, q.home, q.start, q.maxDepth, t, drained, out, visited)
    ensures DistinctEnds(out)
  {
    WalkEnds(q.shards, q.home, q.start, q.maxDepth, t, drained, out, visited);
  }

  lemma EndsAreReturned(out: seq<Path>)
    ensures forall v :: v in Ends(out) <==> exists d: nat :: Returned(out, v, d)
  {
    forall p | p in out ensures exists d: nat :: Returned(out, EndOf(p), d) {
      var i :| 0 <= i < |out| && out[i] == p;
      assert Returned(out, EndOf(p), out[i].depth);
    }
    forall v, d: nat | Returned(out, v, d) ensures v in Ends(out) {
      var i :| 0 <= i < |out| && EndOf(out[i]) == v && out[i].depth == d;
      assert out[i] in out;
    }
  }

  lemma SameReturns(out: seq<Path>, out': seq<Path>)
    requires DistinctEnds(out) && DistinctEnds(out')
             && forall v, d: nat :: Returned(out, v, d) <==> Returned(out', v, d)
    ensures Ends(out) == Ends(out') && |out| == |out'|
  {
    EndsAreReturned(out);
    EndsAreReturned(out');
    EndCount(out);
    EndCount(out');
  }

  /** Any two walks with the same arguments over the same shards return paths to the same vertices at
      the same depths, whatever order the shard groups come in. */
  lemma WalksAgree(q: Tour, t: HomeTrace, drained: seq<Continuation>, out: seq<Path>, visited: set<string>,
                   t': HomeTrace, drained': seq<Continuation>, out': seq<Path>, visited': set<string>)
    requires Walked(q.shards, q.home, q.start, q.maxDepth, t, drained, out, visited)
    requires Walked(q.shards, q.home, q.start, q.maxDepth, t', drained', out', visited')
    ensures forall v, d: nat :: Returned(out, v, d) <==> Returned(out', v, d)
    ensures Ends(out) == Ends(out') && |out| == |out'|
  {
    forall v, d: nat ensures Returned(out, v, d) <==> Returned(out', v, d) {
      WalkFindsExactly(q, t, drained, out, visited, v, d);
      WalkFindsExactly(q, t', drained', out', visited', v, d);
    }
    WalkHasDistinctEnds(q, t, drained, out, visited);
    WalkHasDistinctEnds(q, t', drained', out', visited');
    SameReturns(out, out');
  }

  /** Every vertex within the limit is found. */
  ghost predicate Complete(q: Tour) {
    forall v :: v in Within(EdgeSet(q.shards), q.start, Limit(q.maxDepth)) ==> exists d: nat :: Finds(q, v, d)
  }

  /** Every walk for the question misses no vertex within its limit, or every one misses some. */
  lemma WalkIsCompleteWhen(q: Tour, t: HomeTrace, drained: seq<Continuation>, out: seq<Path>, visited: set<string>)
    requires Walked(q.shards, q.home, q.start, q.maxDepth, t, drained, out, visited)
    ensures Within(EdgeSet(q.shards), q.start, Limit(q.maxDepth)) <= Ends(out) <==> Complete(q)
  {
    EndsAreReturned(out);
    forall v, d: nat ensures Returned(out, v, d) <==> Finds(q, v, d) {
      WalkFindsExactly(q, t, drained, out, visited, v, d);
    }
  }
}
