/** What the two phases of a walk do, as relations between the shards, the queues and the result
    (internal/walk/walk.go, internal/merge/merge.go, internal/model/path.go). Nothing here fixes the
    order in which shard groups are visited. */
module WalkSpec {
  import opened GraphModel
  import opened ShardSpec
  import opened StoreSpec

  datatype Path = Path(vertices: seq<string>, edges: seq<string>, depth: nat)

  function NewPath(root: string): Path {
    Path([root], [], 0)
  }

  function Extend(p: Path, vertex: string, edge: string): Path {
    Path(p.vertices + [vertex], p.edges + [edge], p.depth + 1)
  }

  datatype FrontierItem = FrontierItem(vertex: string, depth: nat, path: Path, shard: nat)

  datatype Continuation = Continuation(vertex: string, depth: nat, path: Path, shard: nat)

  function RootItem(start: string, home: nat): FrontierItem {
    FrontierItem(start, 0, NewPath(start), home)
  }

  /** One hop inside the start shard. */
  function HomeHop(item: FrontierItem, e: Edge): FrontierItem {
    FrontierItem(e.to, item.depth + 1, Extend(item.path, e.to, e.id), item.shard)
  }

  /** One hop out of the start shard, handed to the merger. */
  function CrossHop(item: FrontierItem, e: Edge, shard: nat): Continuation {
    Continuation(e.to, item.depth + 1, Extend(item.path, e.to, e.id), shard)
  }

  /** One hop inside the merger. */
  function CarryDepth(c: Continuation, e: Edge): Continuation {
    Continuation(e.to, c.depth + 1, Extend(c.path, e.to, e.id), c.shard)
  }

  function ItemPath(item: FrontierItem): Path {
    item.path.(depth := item.depth)
  }

  function ContinuationPath(c: Continuation): Path {
    c.path.(depth := c.depth)
  }

  function ItemPaths(items: seq<FrontierItem>): seq<Path> {
    seq(|items|, i requires 0 <= i < |items| => ItemPath(items[i]))
  }

  function ContinuationPaths(cs: seq<Continuation>): seq<Path> {
    seq(|cs|, i requires 0 <= i < |cs| => ContinuationPath(cs[i]))
  }

  ghost function ItemVertices(items: seq<FrontierItem>): set<string> {
    set m | m in items :: m.vertex
  }

  ghost function ContinuationVertices(cs: seq<Continuation>): set<string> {
    set c | c in cs :: c.vertex
  }

  ghost predicate DistinctItems(items: seq<FrontierItem>) {
    forall i, j :: 0 <= i < j < |items| ==> items[i].vertex != items[j].vertex
  }

  ghost predicate DistinctContinuations(cs: seq<Continuation>) {
    forall i, j :: 0 <= i < j < |cs| ==> cs[i].vertex != cs[j].vertex
  }

  ghost predicate Rising(cs: seq<Continuation>) {
    forall i, j :: 0 <= i <= j < |cs| ==> cs[i].depth <= cs[j].depth
  }

  ghost predicate HomeEdge(shards: seq<ShardState>, home: nat, e: Edge) {
    home < |shards| && e in shards[home].live
  }

  ghost predicate AwayEdge(shards: seq<ShardState>, home: nat, h: nat, e: Edge) {
    h < |shards| && h != home && e in shards[h].live
  }

  // Phase 1: breadth first over the edges of the start shard.

  ghost predicate HomeStep(shards: seq<ShardState>, home: nat, maxDepth: int, parent: FrontierItem,
                           child: FrontierItem)
  {
    parent.depth < maxDepth && exists e :: HomeEdge(shards, home, e) && e.from == parent.vertex
                                           && child == HomeHop(parent, e)
  }

  /** Item i was queued by the expansion of an earlier one. */
  ghost predicate StepAt(shards: seq<ShardState>, home: nat, maxDepth: int, items: seq<FrontierItem>, parents: seq<nat>,
                         i: nat)
    requires |items| == |parents| > i
  {
    parents[i] < i && HomeStep(shards, home, maxDepth, items[parents[i]], items[i])
  }

  /** Every item but the root was queued by an earlier one, in the order those were expanded, and no
      vertex was queued twice. */
  ghost predicate Chained(shards: seq<ShardState>, home: nat, start: string, maxDepth: int,
                          items: seq<FrontierItem>, parents: seq<nat>)
  {
    && |items| == |parents| > 0 && items[0] == RootItem(start, home)
    && (forall i :: 0 < i < |items| ==> StepAt(shards, home, maxDepth, items, parents, i))
    && (forall i, j :: 0 < i < j < |items| ==> parents[i] <= parents[j])
    && DistinctItems(items)
  }

  /** The vertex is queued no later than by the expansion of item i. */
  ghost predicate Reached(items: seq<FrontierItem>, parents: seq<nat>, i: nat, v: string)
    requires |items| == |parents|
  {
    exists k :: 0 <= k < |items| && items[k].vertex == v && (k == 0 || parents[k] <= i)
  }

  /** Item i is fully expanded inside the start shard. */
  ghost predicate CoveredAt(shards: seq<ShardState>, home: nat, maxDepth: int, items: seq<FrontierItem>,
                            parents: seq<nat>, i: nat)
    requires |items| == |parents| > i
  {
    items[i].depth < maxDepth ==>
      forall e :: HomeEdge(shards, home, e) && e.from == items[i].vertex ==> Reached(items, parents, i, e.to)
  }

  ghost predicate Covered(shards: seq<ShardState>, home: nat, maxDepth: int,
                          items: seq<FrontierItem>, parents: seq<nat>, n: nat)
    requires |items| == |parents| >= n
  {
    forall i :: 0 <= i < n ==> CoveredAt(shards, home, maxDepth, items, parents, i)
  }

  ghost predicate CameFrom(shards: seq<ShardState>, home: nat, maxDepth: int, items: seq<FrontierItem>, n: nat,
                           c: Continuation)
    requires n <= |items|
  {
    exists i, h, e :: 0 <= i < n && AwayEdge(shards, home, h, e) && e.from == items[i].vertex
                      && items[i].depth < maxDepth
                      && c == CrossHop(items[i], e, h)
  }

  /** Every cross-shard hop of the item is among the continuations. */
  ghost predicate HandsOver(shards: seq<ShardState>, home: nat, maxDepth: int, item: FrontierItem,
                            conts: seq<Continuation>)
  {
    item.depth < maxDepth ==>
      forall h, e :: AwayEdge(shards, home, h, e) && e.from == item.vertex ==> CrossHop(item, e, h) in conts
  }

  ghost predicate AllHandedOff(shards: seq<ShardState>, home: nat, maxDepth: int, items: seq<FrontierItem>, n: nat,
                               conts: seq<Continuation>)
    requires n <= |items|
  {
    forall i :: 0 <= i < n ==> HandsOver(shards, home, maxDepth, items[i], conts)
  }

  /** The continuations are exactly the cross-shard hops of the first n items. */
  ghost predicate HandedOff(shards: seq<ShardState>, home: nat, maxDepth: int, items: seq<FrontierItem>, n: nat,
                            conts: seq<Continuation>)
    requires n <= |items|
  {
    && (forall c :: c in conts ==> CameFrom(shards, home, maxDepth, items, n, c))
    && AllHandedOff(shards, home, maxDepth, items, n, conts)
  }

  /** Places in the store that hold an edge: the edge together with its generation. */
  ghost function Places(shards: seq<ShardState>): set<(nat, Edge)> {
    set i: nat, e | i < |shards| && e in shards[i].live :: (i, e)
  }

  /** Each queued continuation was charged to a place of its own whose source is among the vertices. */
  ghost predicate ChargedTo(shards: seq<ShardState>, charged: set<(nat, Edge)>, sources: set<string>) {
    charged <= Places(shards) && forall p :: p in charged ==> p.1.from in sources
  }

  datatype HomeTrace = HomeTrace(items: seq<FrontierItem>, parents: seq<nat>, conts: seq<Continuation>,
                                 charged: set<(nat, Edge)>)

  ghost predicate HomeWalk(shards: seq<ShardState>, home: nat, start: string, maxDepth: int, t: HomeTrace) {
    && Chained(shards, home, start, maxDepth, t.items, t.parents)
    && Covered(shards, home, maxDepth, t.items, t.parents, |t.items|)
    && HandedOff(shards, home, maxDepth, t.items, |t.items|, t.conts) && Rising(t.conts)
    && ChargedTo(shards, t.charged, ItemVertices(t.items)) && |t.charged| == |t.conts|
  }

  lemma {:induction false} DepthsSorted(shards: seq<ShardState>, home: nat, start: string, maxDepth: int,
                                        items: seq<FrontierItem>, parents: seq<nat>, i: nat, j: nat)
    requires Chained(shards, home, start, maxDepth, items, parents) && i <= j < |items|
    ensures items[i].depth <= items[j].depth
    decreases j
  {
    if 0 < i < j {
      assert StepAt(shards, home, maxDepth, items, parents, i) && StepAt(shards, home, maxDepth, items, parents, j);
      DepthsSorted(shards, home, start, maxDepth, items, parents, parents[i], parents[j]);
    }
  }

  /** Queueing the unvisited targets of item h keeps the chain. */
  lemma ChainedGrows(shards: seq<ShardState>, home: nat, start: string, maxDepth: int,
                     items: seq<FrontierItem>, parents: seq<nat>, h: nat, more: seq<FrontierItem>)
    requires Chained(shards, home, start, maxDepth, items, parents) && h < |items|
    requires forall i :: 0 < i < |items| ==> parents[i] <= h
    requires forall m :: m in more ==> HomeStep(shards, home, maxDepth, items[h], m) && m.vertex !in ItemVertices(items)
    requires DistinctItems(more)
    ensures Chained(shards, home, start, maxDepth, items + more, parents + seq(|more|, _ => h))
  {
    var all, ps := items + more, parents + seq(|more|, _ => h);
    forall i, j | 0 <= i < j < |all| ensures all[i].vertex != all[j].vertex {
      if i < |items| <= j {
        assert all[i].vertex in ItemVertices(items) && all[j] in more;
      }
    }
    forall i | 0 < i < |all| ensures StepAt(shards, home, maxDepth, all, ps, i) {
      if i >= |items| { assert all[i] in more; } else { assert StepAt(shards, home, maxDepth, items, parents, i); }
    }
  }

  lemma CoveredGrows(shards: seq<ShardState>, home: nat, start: string, maxDepth: int,
                     items: seq<FrontierItem>, parents: seq<nat>, h: nat, more: seq<FrontierItem>)
    requires Chained(shards, home, start, maxDepth, items, parents) && h < |items|
    requires Covered(shards, home, maxDepth, items, parents, h)
    requires forall i :: 0 < i < |items| ==> parents[i] <= h
    requires items[h].depth < maxDepth ==>
               forall e :: HomeEdge(shards, home, e) && e.from == items[h].vertex ==> e.to in ItemVertices(items + more)
    ensures Covered(shards, home, maxDepth, items + more, parents + seq(|more|, _ => h), h + 1)
  {
    var all, ps := items + more, parents + seq(|more|, _ => h);
    forall i | 0 <= i < h + 1 ensures CoveredAt(shards, home, maxDepth, all, ps, i) {
      if i < h {
        assert CoveredAt(shards, home, maxDepth, items, parents, i);
      }
      forall e | all[i].depth < maxDepth && HomeEdge(shards, home, e) && e.from == all[i].vertex
        ensures Reached(all, ps, i, e.to)
      {
        if i < h {
          assert Reached(items, parents, i, e.to);
          var k :| 0 <= k < |items| && items[k].vertex == e.to && (k == 0 || parents[k] <= i);
          assert all[k].vertex == e.to && (k == 0 || ps[k] <= i);
        } else {
          var m :| m in all && m.vertex == e.to;
          var k :| 0 <= k < |all| && all[k] == m;
          assert all[k].vertex == e.to && (k == 0 || ps[k] <= i);
        }
      }
    }
  }

  lemma HandedOffGrows(shards: seq<ShardState>, home: nat, maxDepth: int, items: seq<FrontierItem>, h: nat,
                       conts: seq<Continuation>, added: seq<FrontierItem>, more: seq<Continuation>)
    requires h < |items| && HandedOff(shards, home, maxDepth, items, h, conts)
    requires items[h].depth < maxDepth ==> forall c :: c in more <==>
               exists g, e :: AwayEdge(shards, home, g, e) && e.from == items[h].vertex && c == CrossHop(items[h], e, g)
    requires items[h].depth >= maxDepth ==> more == []
    ensures HandedOff(shards, home, maxDepth, items + added, h + 1, conts + more)
  {
    var all := items + added;
    forall c | c in conts + more ensures CameFrom(shards, home, maxDepth, all, h + 1, c) {
      if c in conts {
        assert CameFrom(shards, home, maxDepth, items, h, c);
        var i, g, e :| 0 <= i < h && AwayEdge(shards, home, g, e) && e.from == items[i].vertex
            && items[i].depth < maxDepth
                       && c == CrossHop(items[i], e, g);
        assert all[i] == items[i];
      } else {
        assert c in more;
        var g, e :| AwayEdge(shards, home, g, e) && e.from == items[h].vertex && c == CrossHop(items[h], e, g);
        assert all[h] == items[h];
      }
    }
    forall i | 0 <= i < h + 1 ensures HandsOver(shards, home, maxDepth, all[i], conts + more) {
      assert all[i] == items[i];
      if i < h { assert HandsOver(shards, home, maxDepth, items[i], conts); }
    }
  }

  /** The continuations rise in depth, and none lies deeper than one hop below the next item. */
  ghost predicate Graded(items: seq<FrontierItem>, h: nat, conts: seq<Continuation>) {
    Rising(conts) && (h < |items| ==> forall c :: c in conts ==> c.depth <= items[h].depth + 1)
  }

  lemma GradedGrows(shards: seq<ShardState>, home: nat, start: string, maxDepth: int, items: seq<FrontierItem>,
                    parents: seq<nat>,
                    h: nat, conts: seq<Continuation>, more: seq<Continuation>)
    requires Chained(shards, home, start, maxDepth, items, parents) && h < |items| && Graded(items, h, conts)
    requires forall c :: c in more ==> c.depth == items[h].depth + 1
    ensures Graded(items, h + 1, conts + more)
  {
    var all := conts + more;
    forall i, j | 0 <= i <= j < |all| ensures all[i].depth <= all[j].depth {
      assert all[i] in conts || all[i] in more;
      if j >= |conts| { assert all[j] in more; }
    }
    if h + 1 < |items| {
      DepthsSorted(shards, home, start, maxDepth, items, parents, h, h + 1);
    }
  }

  /** Phase 1 after the first h items: the marks are the queued vertices, and each continuation is
      charged to the expansion of one of those items. */
  ghost predicate Searching(shards: seq<ShardState>, home: nat, start: string, maxDepth: int, t: HomeTrace, h: nat,
                            visited: set<string>)
  {
    && h <= |t.items|
    && Chained(shards, home, start, maxDepth, t.items, t.parents)
    && (forall m :: m in t.items ==> m.shard == home)
    && (forall i :: 0 < i < |t.items| ==> t.parents[i] < h)
    && Covered(shards, home, maxDepth, t.items, t.parents, h)
    && HandedOff(shards, home, maxDepth, t.items, h, t.conts) && Graded(t.items, h, t.conts)
    && ChargedTo(shards, t.charged, ItemVertices(t.items[..h])) && |t.charged| == |t.conts|
    && visited == ItemVertices(t.items)
  }

  /** What one expansion in phase 1 adds: new items, continuations and the places they are charged to. */
  ghost predicate HomeExpanded(shards: seq<ShardState>, current: FrontierItem, maxDepth: int, visited: set<string>,
                               more: seq<FrontierItem>, crossed: seq<Continuation>, places: set<(nat, Edge)>)
  {
    && (current.depth >= maxDepth ==> more == [] && crossed == [])
    && DistinctItems(more)
    && (forall m :: m in more ==> HomeStep(shards, current.shard, maxDepth, current, m) && m.vertex !in visited
                                  && m.shard == current.shard)
    && (current.depth < maxDepth ==>
          forall e :: HomeEdge(shards, current.shard, e) && e.from == current.vertex ==>
                        e.to in visited + ItemVertices(more))
    && (current.depth < maxDepth ==> forall c :: c in crossed <==>
          exists g, e :: AwayEdge(shards, current.shard, g, e) && e.from == current.vertex
                         && c == CrossHop(current, e, g))
    && |places| == |crossed| && (forall p :: p in places ==> p in Places(shards) && p.1.from == current.vertex)
  }

  function Appended(t: HomeTrace, h: nat, more: seq<FrontierItem>, crossed: seq<Continuation>,
                    places: set<(nat, Edge)>): HomeTrace
  {
    HomeTrace(t.items + more, t.parents + seq(|more|, _ => h), t.conts + crossed, t.charged + places)
  }

  lemma SearchStarts(shards: seq<ShardState>, home: nat, start: string, maxDepth: int)
    ensures Searching(shards, home, start, maxDepth, HomeTrace([RootItem(start, home)], [0], [], {}), 0, {start})
  {
    assert RootItem(start, home) in [RootItem(start, home)];
  }

  lemma ChargesGrow(shards: seq<ShardState>, v: string, charged: set<(nat, Edge)>, more: set<(nat, Edge)>,
                    sources: set<string>)
    requires ChargedTo(shards, charged, sources) && v !in sources
    requires forall p :: p in more ==> p in Places(shards) && p.1.from == v
    ensures ChargedTo(shards, charged + more, sources + {v}) && |charged + more| == |charged| + |more|
  {
    assert charged !! more;
  }

  lemma HomeChargesGrow(shards: seq<ShardState>, items: seq<FrontierItem>, h: nat, more: seq<FrontierItem>,
                        charged: set<(nat, Edge)>, places: set<(nat, Edge)>)
    requires h < |items| && DistinctItems(items) && ChargedTo(shards, charged, ItemVertices(items[..h]))
    requires forall p :: p in places ==> p in Places(shards) && p.1.from == items[h].vertex
    ensures ChargedTo(shards, charged + places, ItemVertices((items + more)[..h + 1]))
            && |charged + places| == |charged| + |places|
  {
    assert (items + more)[..h + 1] == items[..h] + [items[h]];
    assert ItemVertices(items[..h] + [items[h]]) == ItemVertices(items[..h]) + {items[h].vertex};
    ChargesGrow(shards, items[h].vertex, charged, places, ItemVertices(items[..h]));
  }

  lemma VerticesConcat(items: seq<FrontierItem>, more: seq<FrontierItem>)
    ensures ItemVertices(items + more) == ItemVertices(items) + ItemVertices(more)
  {
    forall m | m in items || m in more ensures m.vertex in ItemVertices(items + more) {
      assert m in items + more;
    }
  }

  lemma ItemsAdvance(shards: seq<ShardState>, home: nat, start: string, maxDepth: int, t: HomeTrace, h: nat,
                     visited: set<string>,
                     more: seq<FrontierItem>, crossed: seq<Continuation>, places: set<(nat, Edge)>)
    requires h < |t.items| && Chained(shards, home, start, maxDepth, t.items, t.parents)
    requires (forall m :: m in t.items ==> m.shard == home) && (forall i :: 0 < i < |t.items| ==> t.parents[i] < h)
    requires Covered(shards, home, maxDepth, t.items, t.parents, h) && visited == ItemVertices(t.items)
    requires HomeExpanded(shards, t.items[h], maxDepth, visited, more, crossed, places)
    ensures var next := Appended(t, h, more, crossed, places);
            && Chained(shards, home, start, maxDepth, next.items, next.parents)
            && (forall m :: m in next.items ==> m.shard == home)
            && (forall i :: 0 < i < |next.items| ==> next.parents[i] < h + 1)
            && Covered(shards, home, maxDepth, next.items, next.parents, h + 1)
            && visited + ItemVertices(more) == ItemVertices(next.items)
  {
    assert t.items[h] in t.items;
    VerticesConcat(t.items, more);
    ChainedGrows(shards, home, start, maxDepth, t.items, t.parents, h, more);
    CoveredGrows(shards, home, start, maxDepth, t.items, t.parents, h, more);
  }

  lemma ContinuationsAdvance(shards: seq<ShardState>, home: nat, start: string, maxDepth: int, t: HomeTrace, h: nat,
                             visited: set<string>,
                             more: seq<FrontierItem>, crossed: seq<Continuation>, places: set<(nat, Edge)>)
    requires h < |t.items| && DistinctItems(t.items) && t.items[h].shard == home
    requires HandedOff(shards, home, maxDepth, t.items, h, t.conts) && Graded(t.items, h, t.conts)
    requires ChargedTo(shards, t.charged, ItemVertices(t.items[..h])) && |t.charged| == |t.conts|
    requires HomeExpanded(shards, t.items[h], maxDepth, visited, more, crossed, places)
    requires var next := Appended(t, h, more, crossed, places);
             Chained(shards, home, start, maxDepth, next.items, next.parents)
    ensures var next := Appended(t, h, more, crossed, places);
            && HandedOff(shards, home, maxDepth, next.items, h + 1, next.conts) && Graded(next.items, h + 1, next.conts)
            && ChargedTo(shards, next.charged, ItemVertices(next.items[..h + 1])) && |next.charged| == |next.conts|
  {
    var next := Appended(t, h, more, crossed, places);
    HandedOffGrows(shards, home, maxDepth, t.items, h, t.conts, more, crossed);
    HomeChargesGrow(shards, t.items, h, more, t.charged, places);
    assert next.items[h] == t.items[h];
    GradedGrows(shards, home, start, maxDepth, next.items, next.parents, h, t.conts, crossed);
  }

  lemma SearchContinues(shards: seq<ShardState>, home: nat, start: string, maxDepth: int, t: HomeTrace, h: nat,
                        visited: set<string>,
                        more: seq<FrontierItem>, crossed: seq<Continuation>, places: set<(nat, Edge)>)
    requires Searching(shards, home, start, maxDepth, t, h, visited) && h < |t.items|
    requires HomeExpanded(shards, t.items[h], maxDepth, visited, more, crossed, places)
    ensures Searching(shards, home, start, maxDepth, Appended(t, h, more, crossed, places), h + 1,
                      visited + ItemVertices(more))
  {
    assert t.items[h] in t.items;
    ItemsAdvance(shards, home, start, maxDepth, t, h, visited, more, crossed, places);
    ContinuationsAdvance(shards, home, start, maxDepth, t, h, visited, more, crossed, places);
  }

  lemma SearchEnds(shards: seq<ShardState>, home: nat, start: string, maxDepth: int, t: HomeTrace, visited: set<string>)
    requires Searching(shards, home, start, maxDepth, t, |t.items|, visited)
    ensures HomeWalk(shards, home, start, maxDepth, t) && visited == ItemVertices(t.items)
  {
    assert t.items[..|t.items|] == t.items;
  }

  // Phase 2: draining the continuations across all shards.

  ghost predicate Carried(shards: seq<ShardState>, maxDepth: int, drained: seq<Continuation>, c: Continuation) {
    exists j, e :: 0 <= j < |drained| && e in EdgeSet(shards) && e.from == drained[j].vertex
                   && drained[j].depth < maxDepth
                   && c == CarryDepth(drained[j], e)
  }

  ghost predicate Derives(shards: seq<ShardState>, maxDepth: int, conts: seq<Continuation>, drained: seq<Continuation>,
                          c: Continuation)
  {
    c in conts || Carried(shards, maxDepth, drained, c)
  }

  /** What was drained at position i was handed over or came from something drained before it. */
  ghost predicate DerivesAt(shards: seq<ShardState>, maxDepth: int, conts: seq<Continuation>,
                            drained: seq<Continuation>, i: nat)
    requires i < |drained|
  {
    Derives(shards, maxDepth, conts, drained[..i], drained[i])
  }

  ghost predicate Waiting(queue: seq<Continuation>, visited: set<string>, v: string) {
    v in visited || exists c :: c in queue && c.vertex == v
  }

  /** Every live target of something drained below the limit is marked or still queued. */
  ghost predicate Spent(shards: seq<ShardState>, maxDepth: int, queue: seq<Continuation>, visited: set<string>,
                        c: Continuation)
  {
    c.depth < maxDepth ==> forall e :: e in EdgeSet(shards) && e.from == c.vertex ==> Waiting(queue, visited, e.to)
  }

  /** State of the merger: what it drained so far, what it still has queued, what is marked. */
  ghost predicate Merging(shards: seq<ShardState>, maxDepth: int, conts: seq<Continuation>, marked: set<string>,
                          drained: seq<Continuation>, queue: seq<Continuation>, visited: set<string>)
  {
    && visited == marked + ContinuationVertices(drained)
    && DistinctContinuations(drained) && (forall c :: c in drained ==> c.vertex !in marked)
    && (forall i :: 0 <= i < |drained| ==> DerivesAt(shards, maxDepth, conts, drained, i))
    && (forall c :: c in queue ==> Derives(shards, maxDepth, conts, drained, c))
    && (forall c :: c in conts ==> Waiting(queue, visited, c.vertex))
    && (forall j :: 0 <= j < |drained| ==> Spent(shards, maxDepth, queue, visited, drained[j]))
  }

  /** The finished merger, for any input: what was drained explains every new path and every mark. */
  ghost predicate MergeResult(shards: seq<ShardState>, maxDepth: int, paths: seq<Path>, conts: seq<Continuation>,
                              marked: set<string>,
                              drained: seq<Continuation>, out: seq<Path>, visited: set<string>)
  {
    && out == paths + ContinuationPaths(drained)
    && Merging(shards, maxDepth, conts, marked, drained, [], visited)
  }

  lemma MergeSkips(shards: seq<ShardState>, maxDepth: int, conts: seq<Continuation>, marked: set<string>,
                   drained: seq<Continuation>, queue: seq<Continuation>, visited: set<string>)
    requires Merging(shards, maxDepth, conts, marked, drained, queue, visited) && |queue| > 0
             && queue[0].vertex in visited
    ensures Merging(shards, maxDepth, conts, marked, drained, queue[1..], visited)
  {
    assert queue == [queue[0]] + queue[1..];
    forall v | Waiting(queue, visited, v) ensures Waiting(queue[1..], visited, v) {
    }
    forall j | 0 <= j < |drained| ensures Spent(shards, maxDepth, queue[1..], visited, drained[j]) {
      assert Spent(shards, maxDepth, queue, visited, drained[j]);
    }
  }

  lemma CarriedGrows(shards: seq<ShardState>, maxDepth: int, drained: seq<Continuation>, next: Continuation,
                     c: Continuation)
    requires Carried(shards, maxDepth, drained, c)
    ensures Carried(shards, maxDepth, drained + [next], c)
  {
    var j, e :| 0 <= j < |drained| && e in EdgeSet(shards) && e.from == drained[j].vertex && drained[j].depth < maxDepth
                && c == CarryDepth(drained[j], e);
    assert (drained + [next])[j] == drained[j];
  }

  lemma HeadIsSpent(shards: seq<ShardState>, maxDepth: int, head: Continuation, rest: seq<Continuation>,
                    seen: set<string>, more: seq<Continuation>)
    requires forall c :: c in more ==> c in rest
    requires head.depth < maxDepth ==>
               forall e :: e in EdgeSet(shards) && e.from == head.vertex && e.to !in seen ==>
                             CarryDepth(head, e) in more
    ensures Spent(shards, maxDepth, rest, seen, head)
  {
    forall e | head.depth < maxDepth && e in EdgeSet(shards) && e.from == head.vertex
      ensures Waiting(rest, seen, e.to)
    {
      if e.to !in seen {
        assert CarryDepth(head, e) in rest;
      }
    }
  }

  /** Accepting the head of the queue, marking it and queueing its unmarked targets. */
  lemma MergeAccepts(shards: seq<ShardState>, maxDepth: int, conts: seq<Continuation>, marked: set<string>,
                     drained: seq<Continuation>, queue: seq<Continuation>, visited: set<string>,
                     more: seq<Continuation>)
    requires Merging(shards, maxDepth, conts, marked, drained, queue, visited) && |queue| > 0
             && queue[0].vertex !in visited
    requires queue[0].depth >= maxDepth ==> more == []
    requires queue[0].depth < maxDepth ==> forall c :: c in more <==>
               exists e :: e in EdgeSet(shards) && e.from == queue[0].vertex && e.to !in visited + {queue[0].vertex}
                           && c == CarryDepth(queue[0], e)
    ensures Merging(shards, maxDepth, conts, marked, drained + [queue[0]], queue[1..] + more,
                    visited + {queue[0].vertex})
  {
    var head, rest := queue[0], queue[1..] + more;
    var done, seen := drained + [head], visited + {head.vertex};
    assert queue == [head] + queue[1..];
    forall v | Waiting(queue, visited, v) ensures Waiting(rest, seen, v) {
      if v !in seen {
        var c :| c in queue && c.vertex == v;
        assert c in rest;
      }
    }
    assert ContinuationVertices(done) == ContinuationVertices(drained) + {head.vertex};
    forall i | 0 <= i < |done| ensures DerivesAt(shards, maxDepth, conts, done, i) {
      if i < |drained| {
        assert DerivesAt(shards, maxDepth, conts, drained, i) && done[..i] == drained[..i];
      } else {
        assert done[..i] == drained && head in queue;
      }
    }
    forall c | c in rest ensures Derives(shards, maxDepth, conts, done, c) {
      if c in queue {
        if c !in conts { CarriedGrows(shards, maxDepth, drained, head, c); }
      } else {
        assert c in more;
        var e :| e in EdgeSet(shards) && e.from == head.vertex && e.to !in seen && c == CarryDepth(head, e);
        assert done[|drained|] == head;
        assert Carried(shards, maxDepth, done, c);
      }
    }
    forall j | 0 <= j < |done| ensures Spent(shards, maxDepth, rest, seen, done[j]) {
      if j < |drained| {
        assert Spent(shards, maxDepth, queue, visited, drained[j]);
      } else {
        HeadIsSpent(shards, maxDepth, head, rest, seen, more);
      }
    }
  }
}
