/** What a finished walk guarantees: a rooted tree of real paths, exact breadth-first search in the
    start shard, depth-limited closure, full reachability for a large enough depth, linear work. */
module WalkTheory {
  import opened Seqs
  import opened GraphModel
  import opened ShardSpec
  import opened StoreSpec
  import opened FlatGraph
  import opened WalkSpec
  import opened WaveSpec

  function Limit(maxDepth: int): nat {
    if maxDepth < 0 then 0 else maxDepth
  }

  function EndOf(p: Path): string {
    if |p.vertices| == 0 then "" else p.vertices[|p.vertices| - 1]
  }

  ghost function Ends(out: seq<Path>): set<string> {
    set p | p in out :: EndOf(p)
  }

  ghost predicate DistinctEnds(out: seq<Path>) {
    forall i, j :: 0 <= i < j < |out| ==> EndOf(out[i]) != EndOf(out[j])
  }

  ghost function HomeSet(shards: seq<ShardState>, home: nat): set<Edge> {
    if home < |shards| then set e | e in shards[home].live else {}
  }

  // The whole walk.

  ghost predicate Walked(shards: seq<ShardState>, home: nat, start: string, maxDepth: int,
                         t: HomeTrace, drained: seq<Continuation>, out: seq<Path>, visited: set<string>)
  {
    && HomeWalk(shards, home, start, maxDepth, t)
    && MergeResult(shards, maxDepth, ItemPaths(t.items), t.conts, ItemVertices(t.items), drained, out, visited)
    && Waving(EdgeSet(shards), maxDepth, t.conts, ItemVertices(t.items), drained, [])
  }

  ghost predicate Hop(es: set<Edge>, maxDepth: int, p: Path, q: Path) {
    p.depth < maxDepth && exists e :: e in es && e.from == EndOf(p) && q == Extend(p, e.to, e.id)
  }

  ghost predicate HasSource(es: set<Edge>, maxDepth: int, out: seq<Path>, i: nat)
    requires i < |out|
  {
    exists j :: 0 <= j < i && Hop(es, maxDepth, out[j], out[i])
  }

  /** Every path but the first extends an earlier one by an edge of the set. */
  ghost predicate Grown(es: set<Edge>, start: string, maxDepth: int, out: seq<Path>) {
    && |out| > 0 && out[0] == NewPath(start)
    && (forall i :: 0 < i < |out| ==> HasSource(es, maxDepth, out, i))
  }

  ghost predicate DepthClosed(es: set<Edge>, maxDepth: int, out: seq<Path>) {
    forall i, e :: 0 <= i < |out| && e in es && e.from == EndOf(out[i]) && out[i].depth < maxDepth ==> e.to in Ends(out)
  }

  ghost predicate FitItem(m: FrontierItem) {
    m.depth == m.path.depth && EndOf(m.path) == m.vertex
  }

  ghost predicate FitContinuation(c: Continuation) {
    c.depth == c.path.depth && EndOf(c.path) == c.vertex
  }

  lemma {:induction false} ItemsFit(shards: seq<ShardState>, home: nat, start: string, maxDepth: int,
                                    items: seq<FrontierItem>, parents: seq<nat>, n: nat)
    requires Chained(shards, home, start, maxDepth, items, parents) && n <= |items|
    ensures forall i :: 0 <= i < n ==> FitItem(items[i])
  {
    if n > 0 {
      ItemsFit(shards, home, start, maxDepth, items, parents, n - 1);
      if n > 1 { assert StepAt(shards, home, maxDepth, items, parents, n - 1); }
    }
  }

  lemma ContinuationsFit(shards: seq<ShardState>, home: nat, start: string, maxDepth: int, t: HomeTrace)
    requires HomeWalk(shards, home, start, maxDepth, t)
    ensures forall c :: c in t.conts ==> FitContinuation(c)
  {
    ItemsFit(shards, home, start, maxDepth, t.items, t.parents, |t.items|);
    forall c | c in t.conts ensures FitContinuation(c) {
      assert CameFrom(shards, home, maxDepth, t.items, |t.items|, c);
    }
  }

  lemma {:induction false} DrainedFit(shards: seq<ShardState>, maxDepth: int, conts: seq<Continuation>,
                                      marked: set<string>,
                                      drained: seq<Continuation>, visited: set<string>, n: nat)
    requires Merging(shards, maxDepth, conts, marked, drained, [], visited) && n <= |drained|
    requires forall c :: c in conts ==> FitContinuation(c)
    ensures forall i :: 0 <= i < n ==> FitContinuation(drained[i])
  {
    if n > 0 {
      DrainedFit(shards, maxDepth, conts, marked, drained, visited, n - 1);
      assert DerivesAt(shards, maxDepth, conts, drained, n - 1);
    }
  }

  lemma WalkFits(shards: seq<ShardState>, home: nat, start: string, maxDepth: int,
                 t: HomeTrace, drained: seq<Continuation>, out: seq<Path>, visited: set<string>)
    requires Walked(shards, home, start, maxDepth, t, drained, out, visited)
    ensures forall k :: 0 <= k < |t.items| ==> FitItem(t.items[k])
    ensures forall k :: 0 <= k < |drained| ==> FitContinuation(drained[k])
  {
    ItemsFit(shards, home, start, maxDepth, t.items, t.parents, |t.items|);
    ContinuationsFit(shards, home, start, maxDepth, t);
    DrainedFit(shards, maxDepth, t.conts, ItemVertices(t.items), drained, visited, |drained|);
  }

  lemma ItemSource(shards: seq<ShardState>, home: nat, start: string, maxDepth: int, items: seq<FrontierItem>,
                   parents: seq<nat>, i: nat)
    returns (j: nat)
    requires Chained(shards, home, start, maxDepth, items, parents) && 0 < i < |items|
    requires forall k :: 0 <= k < |items| ==> FitItem(items[k])
    ensures j < i && Hop(EdgeSet(shards), maxDepth, ItemPath(items[j]), ItemPath(items[i]))
  {
    j := parents[i];
    assert StepAt(shards, home, maxDepth, items, parents, i);
    var e :| HomeEdge(shards, home, e) && e.from == items[j].vertex && items[i] == HomeHop(items[j], e);
    assert e in EdgeSet(shards);
  }

  lemma ItemHasSource(shards: seq<ShardState>, home: nat, start: string, maxDepth: int, items: seq<FrontierItem>,
                      parents: seq<nat>,
                      rest: seq<Path>, i: nat)
    requires Chained(shards, home, start, maxDepth, items, parents) && 0 < i < |items|
    requires forall k :: 0 <= k < |items| ==> FitItem(items[k])
    ensures HasSource(EdgeSet(shards), maxDepth, ItemPaths(items) + rest, i)
  {
    var j := ItemSource(shards, home, start, maxDepth, items, parents, i);
    var out := ItemPaths(items) + rest;
    assert out[j] == ItemPath(items[j]) && out[i] == ItemPath(items[i]);
  }

  lemma CrossSource(shards: seq<ShardState>, home: nat, maxDepth: int, items: seq<FrontierItem>, c: Continuation)
    returns (k: nat)
    requires CameFrom(shards, home, maxDepth, items, |items|, c)
    requires forall i :: 0 <= i < |items| ==> FitItem(items[i])
    ensures k < |items| && Hop(EdgeSet(shards), maxDepth, ItemPath(items[k]), ContinuationPath(c))
  {
    var i, h, e :| 0 <= i < |items| && AwayEdge(shards, home, h, e) && e.from == items[i].vertex
        && items[i].depth < maxDepth
                   && c == CrossHop(items[i], e, h);
    k := i;
    assert e in EdgeSet(shards);
  }

  lemma CarrySource(shards: seq<ShardState>, maxDepth: int, drained: seq<Continuation>, c: Continuation)
    returns (k: nat)
    requires Carried(shards, maxDepth, drained, c)
    requires forall i :: 0 <= i < |drained| ==> FitContinuation(drained[i])
    ensures k < |drained| && Hop(EdgeSet(shards), maxDepth, ContinuationPath(drained[k]), ContinuationPath(c))
  {
    var j, e :| 0 <= j < |drained| && e in EdgeSet(shards) && e.from == drained[j].vertex && drained[j].depth < maxDepth
                && c == CarryDepth(drained[j], e);
    k := j;
  }

  /** Where a drained continuation came from: an item of phase 1 or one drained before it. */
  lemma DrainSource(shards: seq<ShardState>, home: nat, maxDepth: int, items: seq<FrontierItem>,
                    conts: seq<Continuation>, drained: seq<Continuation>, i: nat) returns (j: nat)
    requires i < |drained| && Derives(shards, maxDepth, conts, drained[..i], drained[i])
    requires forall c :: c in conts ==> CameFrom(shards, home, maxDepth, items, |items|, c)
    requires forall k :: 0 <= k < |items| ==> FitItem(items[k])
    requires forall k :: 0 <= k < |drained| ==> FitContinuation(drained[k])
    ensures j < |items| + i
    ensures Hop(EdgeSet(shards), maxDepth, (ItemPaths(items) + ContinuationPaths(drained))[j],
                ContinuationPath(drained[i]))
  {
    var c := drained[i];
    if c in conts {
      j := CrossSource(shards, home, maxDepth, items, c);
    } else {
      var k := CarrySource(shards, maxDepth, drained[..i], c);
      j := |items| + k;
    }
  }

  lemma DrainedHasSource(shards: seq<ShardState>, home: nat, maxDepth: int, items: seq<FrontierItem>,
                         conts: seq<Continuation>, drained: seq<Continuation>, k: nat)
    requires k < |drained| && DerivesAt(shards, maxDepth, conts, drained, k)
    requires forall c :: c in conts ==> CameFrom(shards, home, maxDepth, items, |items|, c)
    requires forall i :: 0 <= i < |items| ==> FitItem(items[i])
    requires forall i :: 0 <= i < |drained| ==> FitContinuation(drained[i])
    ensures HasSource(EdgeSet(shards), maxDepth, ItemPaths(items) + ContinuationPaths(drained), |items| + k)
  {
    var j := DrainSource(shards, home, maxDepth, items, conts, drained, k);
    var out := ItemPaths(items) + ContinuationPaths(drained);
    assert out[|items| + k] == ContinuationPath(drained[k]);
  }

  /** Both phases together only ever extend returned paths by live edges. */
  lemma WalkGrows(shards: seq<ShardState>, home: nat, start: string, maxDepth: int,
                  t: HomeTrace, drained: seq<Continuation>, out: seq<Path>, visited: set<string>)
    requires Walked(shards, home, start, maxDepth, t, drained, out, visited)
    ensures Grown(EdgeSet(shards), start, maxDepth, out)
  {
    var n := |t.items|;
    WalkFits(shards, home, start, maxDepth, t, drained, out, visited);
    forall i | 0 < i < |out| ensures HasSource(EdgeSet(shards), maxDepth, out, i) {
      if i < n {
        ItemHasSource(shards, home, start, maxDepth, t.items, t.parents, ContinuationPaths(drained), i);
      } else {
        DrainedHasSource(shards, home, maxDepth, t.items, t.conts, drained, i - n);
      }
    }
  }

  lemma EndsAreMarks(items: seq<FrontierItem>, drained: seq<Continuation>, out: seq<Path>)
    requires out == ItemPaths(items) + ContinuationPaths(drained)
    requires DistinctItems(items) && DistinctContinuations(drained)
             && forall c :: c in drained ==> c.vertex !in ItemVertices(items)
    requires forall k :: 0 <= k < |items| ==> FitItem(items[k])
    requires forall k :: 0 <= k < |drained| ==> FitContinuation(drained[k])
    ensures DistinctEnds(out) && Ends(out) == ItemVertices(items) + ContinuationVertices(drained)
  {
    var n := |items|;
    forall i, j | 0 <= i < j < |out| ensures EndOf(out[i]) != EndOf(out[j]) {
      if i < n <= j { assert items[i] in items && drained[j - n] in drained; }
    }
    forall m | m in items ensures m.vertex in Ends(out) {
      var k :| 0 <= k < n && items[k] == m;
      assert out[k] in out;
    }
    forall c | c in drained ensures c.vertex in Ends(out) {
      var k :| 0 <= k < |drained| && drained[k] == c;
      assert out[n + k] in out;
    }
    forall p | p in out ensures EndOf(p) in ItemVertices(items) + ContinuationVertices(drained) {
      var k :| 0 <= k < |out| && out[k] == p;
      if k < n { assert items[k] in items; } else { assert drained[k - n] in drained; }
    }
  }

  /** The paths end at distinct vertices, and these are exactly the marked ones. */
  lemma WalkEnds(shards: seq<ShardState>, home: nat, start: string, maxDepth: int,
                 t: HomeTrace, drained: seq<Continuation>, out: seq<Path>, visited: set<string>)
    requires Walked(shards, home, start, maxDepth, t, drained, out, visited)
    ensures DistinctEnds(out) && Ends(out) == visited
    ensures |out| == |t.items| + |drained|
    ensures forall i :: 0 <= i < |t.items| ==> out[i] == t.items[i].path && out[i].depth == t.items[i].depth
                                               && EndOf(out[i]) == t.items[i].vertex
    ensures forall i :: 0 <= i < |drained| ==>
              out[|t.items| + i] == drained[i].path && out[|t.items| + i].depth == drained[i].depth
                  && EndOf(out[|t.items| + i]) == drained[i].vertex
  {
    WalkFits(shards, home, start, maxDepth, t, drained, out, visited);
    EndsAreMarks(t.items, drained, out);
  }

  // Rooted tree.

  ghost predicate EdgeBetween(es: set<Edge>, id: string, u: string, v: string) {
    exists e :: e in es && e.id == id && e.from == u && e.to == v
  }

  ghost predicate RealPath(es: set<Edge>, start: string, p: Path) {
    && |p.vertices| == |p.edges| + 1 && p.depth == |p.edges| && p.vertices[0] == start
    && (forall k :: 0 <= k < |p.edges| ==> EdgeBetween(es, p.edges[k], p.vertices[k], p.vertices[k + 1]))
  }

  function PathPrefix(p: Path, k: nat): Path
    requires k < |p.vertices| && k <= |p.edges|
  {
    Path(p.vertices[..k + 1], p.edges[..k], k)
  }

  /** All proper prefixes of the path were returned before it. */
  ghost predicate PrefixClosed(out: seq<Path>, i: nat)
    requires i < |out|
  {
    && |out[i].vertices| == |out[i].edges| + 1
    && (forall k :: 0 <= k < |out[i].edges| ==> PathPrefix(out[i], k) in out[..i])
  }

  ghost predicate RootedTree(es: set<Edge>, start: string, maxDepth: int, out: seq<Path>) {
    && |out| > 0 && out[0] == NewPath(start)
    && DistinctEnds(out)
    && (forall i :: 0 <= i < |out| ==>
          RealPath(es, start, out[i]) && NoDup(out[i].vertices) && out[i].depth <= Limit(maxDepth)
              && PrefixClosed(out, i))
  }

  lemma HopExtends(es: set<Edge>, start: string, maxDepth: int, out: seq<Path>, j: nat, i: nat)
    requires j < i < |out| && Hop(es, maxDepth, out[j], out[i])
    requires RealPath(es, start, out[j]) && PrefixClosed(out, j)
    ensures RealPath(es, start, out[i]) && out[i].depth <= Limit(maxDepth) && PrefixClosed(out, i)
  {
    var p, q := out[j], out[i];
    var e :| e in es && e.from == EndOf(p) && q == Extend(p, e.to, e.id);
    forall k | 0 <= k < |q.edges| ensures EdgeBetween(es, q.edges[k], q.vertices[k], q.vertices[k + 1]) {
      if k < |p.edges| {
        assert EdgeBetween(es, p.edges[k], p.vertices[k], p.vertices[k + 1]);
      }
    }
    forall k | 0 <= k < |q.edges| ensures PathPrefix(q, k) in out[..i] {
      if k < |p.edges| {
        assert PathPrefix(q, k) == PathPrefix(p, k) && PathPrefix(p, k) in out[..j];
        assert out[..j] == out[..i][..j];
      } else {
        assert PathPrefix(q, k) == p && out[..i][j] == p;
      }
    }
  }

  lemma {:induction false} GrownPath(es: set<Edge>, start: string, maxDepth: int, out: seq<Path>, i: nat)
    requires Grown(es, start, maxDepth, out) && i < |out|
    ensures RealPath(es, start, out[i]) && out[i].depth <= Limit(maxDepth) && PrefixClosed(out, i)
  {
    if i > 0 {
      assert HasSource(es, maxDepth, out, i);
      var j :| 0 <= j < i && Hop(es, maxDepth, out[j], out[i]);
      GrownPath(es, start, maxDepth, out, j);
      HopExtends(es, start, maxDepth, out, j, i);
    }
  }

  /** Where the prefix of k hops stands in the result. */
  lemma PrefixPosition(out: seq<Path>, i: nat, k: nat) returns (a: nat)
    requires i < |out| && PrefixClosed(out, i) && k < |out[i].vertices|
    ensures a < |out| && |out[a].vertices| == k + 1 && EndOf(out[a]) == out[i].vertices[k]
  {
    if k < |out[i].edges| {
      a :| 0 <= a < |out[..i]| && out[..i][a] == PathPrefix(out[i], k);
    } else {
      a := i;
    }
  }

  /** Distinct ends and closed prefixes leave no room for a repeated vertex. */
  lemma PathsAreSimple(es: set<Edge>, start: string, out: seq<Path>, i: nat)
    requires i < |out| && DistinctEnds(out) && RealPath(es, start, out[i]) && PrefixClosed(out, i)
    ensures NoDup(out[i].vertices)
  {
    var p := out[i];
    forall k, l | 0 <= k < l < |p.vertices| ensures p.vertices[k] != p.vertices[l] {
      var a := PrefixPosition(out, i, k);
      var b := PrefixPosition(out, i, l);
      assert |out[a].vertices| != |out[b].vertices|;
      assert a < b || b < a;
    }
  }

  /** The result is a rooted tree of real, simple paths within the depth limit. */
  lemma WalkIsRootedTree(shards: seq<ShardState>, home: nat, start: string, maxDepth: int,
                         t: HomeTrace, drained: seq<Continuation>, out: seq<Path>, visited: set<string>)
    requires Walked(shards, home, start, maxDepth, t, drained, out, visited)
    ensures RootedTree(EdgeSet(shards), start, maxDepth, out)
  {
    WalkGrows(shards, home, start, maxDepth, t, drained, out, visited);
    WalkEnds(shards, home, start, maxDepth, t, drained, out, visited);
    forall i | 0 <= i < |out|
      ensures RealPath(EdgeSet(shards), start, out[i]) && out[i].depth <= Limit(maxDepth) && PrefixClosed(out, i)
      ensures NoDup(out[i].vertices)
    {
      GrownPath(EdgeSet(shards), start, maxDepth, out, i);
      PathsAreSimple(EdgeSet(shards), start, out, i);
    }
  }

  lemma HomeTargetsMarked(shards: seq<ShardState>, home: nat, start: string, maxDepth: int,
                          t: HomeTrace, drained: seq<Continuation>, visited: set<string>, out: seq<Path>, i: nat,
                          e: Edge)
    requires Walked(shards, home, start, maxDepth, t, drained, out, visited)
    requires i < |t.items| && e in EdgeSet(shards) && e.from == t.items[i].vertex && t.items[i].depth < maxDepth
    ensures e.to in visited
  {
    var h :| 0 <= h < |shards| && e in shards[h].live;
    if h == home {
      assert HomeEdge(shards, home, e);
      assert CoveredAt(shards, home, maxDepth, t.items, t.parents, i);
      assert Reached(t.items, t.parents, i, e.to);
      var k :| 0 <= k < |t.items| && t.items[k].vertex == e.to;
      assert t.items[k] in t.items;
    } else {
      assert AwayEdge(shards, home, h, e);
      assert HandsOver(shards, home, maxDepth, t.items[i], t.conts);
      assert CrossHop(t.items[i], e, h) in t.conts;
      assert Waiting([], visited, CrossHop(t.items[i], e, h).vertex);
    }
  }

  /** Every target of a live out-edge of a path end below the limit ends a returned path itself. */
  lemma WalkIsDepthClosed(shards: seq<ShardState>, home: nat, start: string, maxDepth: int,
                          t: HomeTrace, drained: seq<Continuation>, out: seq<Path>, visited: set<string>)
    requires Walked(shards, home, start, maxDepth, t, drained, out, visited)
    ensures DepthClosed(EdgeSet(shards), maxDepth, out)
  {
    WalkEnds(shards, home, start, maxDepth, t, drained, out, visited);
    forall i, e | 0 <= i < |out| && e in EdgeSet(shards) && e.from == EndOf(out[i]) && out[i].depth < maxDepth
      ensures e.to in Ends(out)
    {
      if i < |t.items| {
        HomeTargetsMarked(shards, home, start, maxDepth, t, drained, visited, out, i, e);
      } else {
        assert Spent(shards, maxDepth, [], visited, drained[i - |t.items|]);
        assert Waiting([], visited, e.to);
      }
    }
  }

  // Phase 1 is exact breadth-first search.

  /** The vertices at most n hops from the start. */
  ghost function Within(es: set<Edge>, start: string, n: nat): set<string> {
    if n == 0 then {start}
    else Within(es, start, n - 1) + set e | e in es && e.from in Within(es, start, n - 1) :: e.to
  }

  /** The edges lead from u to v, in this order. */
  ghost predicate IsRoute(es: set<Edge>, u: string, route: seq<Edge>, v: string)
    decreases |route|
  {
    if |route| == 0 then u == v
    else
      var last := route[|route| - 1];
      last in es && last.to == v && IsRoute(es, u, route[..|route| - 1], last.from)
  }

  lemma {:induction false} WithinGrows(es: set<Edge>, start: string, m: nat, n: nat)
    requires m <= n
    ensures Within(es, start, m) <= Within(es, start, n)
    decreases n
  {
    if m < n { WithinGrows(es, start, m, n - 1); }
  }

  lemma {:induction false} RouteIsWithin(es: set<Edge>, start: string, route: seq<Edge>, v: string)
    requires IsRoute(es, start, route, v)
    ensures v in Within(es, start, |route|)
    decreases |route|
  {
    if |route| > 0 {
      RouteIsWithin(es, start, route[..|route| - 1], route[|route| - 1].from);
    }
  }

  lemma {:induction false} WithinHasRoute(es: set<Edge>, start: string, n: nat, v: string) returns (route: seq<Edge>)
    requires v in Within(es, start, n)
    ensures IsRoute(es, start, route, v) && |route| <= n
  {
    if n == 0 {
      route := [];
    } else if v in Within(es, start, n - 1) {
      route := WithinHasRoute(es, start, n - 1, v);
    } else {
      var e :| e in es && e.from in Within(es, start, n - 1) && e.to == v;
      var init := WithinHasRoute(es, start, n - 1, e.from);
      route := init + [e];
      assert route[..|route| - 1] == init;
    }
  }

  /** Within n hops means: some route of at most n edges. */
  lemma WithinMeansRoute(es: set<Edge>, start: string, n: nat, v: string)
    ensures v in Within(es, start, n) <==> exists route :: IsRoute(es, start, route, v) && |route| <= n
  {
    if v in Within(es, start, n) {
      var route := WithinHasRoute(es, start, n, v);
    }
    if route :| IsRoute(es, start, route, v) && |route| <= n {
      RouteIsWithin(es, start, route, v);
      WithinGrows(es, start, |route|, n);
    }
  }

  lemma {:induction false} ItemsAreWithin(shards: seq<ShardState>, home: nat, start: string, maxDepth: int,
                                          items: seq<FrontierItem>, parents: seq<nat>, i: nat)
    requires Chained(shards, home, start, maxDepth, items, parents) && i < |items|
    ensures items[i].vertex in Within(HomeSet(shards, home), start, items[i].depth)
  {
    if i > 0 {
      assert StepAt(shards, home, maxDepth, items, parents, i);
      ItemsAreWithin(shards, home, start, maxDepth, items, parents, parents[i]);
    }
  }

  /** A vertex n hops away inside the start shard is queued at depth n or less. */
  lemma {:induction false} WithinIsQueued(shards: seq<ShardState>, home: nat, start: string, maxDepth: int,
                                          t: HomeTrace, n: nat, v: string) returns (k: nat)
    requires HomeWalk(shards, home, start, maxDepth, t)
    requires n <= Limit(maxDepth) && v in Within(HomeSet(shards, home), start, n)
    ensures k < |t.items| && t.items[k].vertex == v && t.items[k].depth <= n
  {
    if n == 0 {
      k := 0;
    } else if v in Within(HomeSet(shards, home), start, n - 1) {
      k := WithinIsQueued(shards, home, start, maxDepth, t, n - 1, v);
    } else {
      var e :| e in HomeSet(shards, home) && e.from in Within(HomeSet(shards, home), start, n - 1) && e.to == v;
      var u := WithinIsQueued(shards, home, start, maxDepth, t, n - 1, e.from);
      assert HomeEdge(shards, home, e);
      assert CoveredAt(shards, home, maxDepth, t.items, t.parents, u);
      assert Reached(t.items, t.parents, u, v);
      k :| 0 <= k < |t.items| && t.items[k].vertex == v && (k == 0 || t.parents[k] <= u);
      if k > 0 {
        assert StepAt(shards, home, maxDepth, t.items, t.parents, k);
        DepthsSorted(shards, home, start, maxDepth, t.items, t.parents, t.parents[k], u);
      }
    }
  }

  /** The distance of v from the start along the given edges is exactly d. */
  ghost predicate IsDistance(es: set<Edge>, start: string, v: string, d: nat) {
    v in Within(es, start, d) && (d > 0 ==> v !in Within(es, start, d - 1))
  }

  lemma {:induction false} HomePathsReal(shards: seq<ShardState>, home: nat, start: string, maxDepth: int, t: HomeTrace)
    requires HomeWalk(shards, home, start, maxDepth, t)
    ensures Grown(HomeSet(shards, home), start, maxDepth, ItemPaths(t.items))
  {
    var paths, es := ItemPaths(t.items), HomeSet(shards, home);
    ItemsFit(shards, home, start, maxDepth, t.items, t.parents, |t.items|);
    forall i | 0 < i < |paths| ensures HasSource(es, maxDepth, paths, i) {
      assert StepAt(shards, home, maxDepth, t.items, t.parents, i);
      var j := t.parents[i];
      assert Hop(es, maxDepth, paths[j], paths[i]);
    }
  }

  /** The first n paths are the breadth-first tree of the edges: shortest paths, in order of distance,
      one for each vertex within the limit and for no other. */
  ghost predicate BreadthFirst(es: set<Edge>, start: string, maxDepth: int, out: seq<Path>, n: nat) {
    && n <= |out|
    && (forall i :: 0 <= i < n ==> RealPath(es, start, out[i]) && IsDistance(es, start, EndOf(out[i]), out[i].depth))
    && (forall i, j :: 0 <= i <= j < n ==> out[i].depth <= out[j].depth)
    && (forall v :: v in Within(es, start, Limit(maxDepth)) <==> v in Ends(out[..n]))
  }

  lemma DepthIsLeast(shards: seq<ShardState>, home: nat, start: string, maxDepth: int, t: HomeTrace, i: nat, n: nat)
    requires HomeWalk(shards, home, start, maxDepth, t) && i < |t.items| && n <= Limit(maxDepth)
    requires t.items[i].vertex in Within(HomeSet(shards, home), start, n)
    ensures t.items[i].depth <= n
  {
    var k := WithinIsQueued(shards, home, start, maxDepth, t, n, t.items[i].vertex);
    assert k == i;
  }

  lemma ItemDistance(shards: seq<ShardState>, home: nat, start: string, maxDepth: int, t: HomeTrace, i: nat)
    requires HomeWalk(shards, home, start, maxDepth, t) && i < |t.items| && t.items[i].depth <= Limit(maxDepth)
    ensures IsDistance(HomeSet(shards, home), start, t.items[i].vertex, t.items[i].depth)
  {
    var d, v := t.items[i].depth, t.items[i].vertex;
    ItemsAreWithin(shards, home, start, maxDepth, t.items, t.parents, i);
    if d > 0 && v in Within(HomeSet(shards, home), start, d - 1) {
      DepthIsLeast(shards, home, start, maxDepth, t, i, d - 1);
    }
  }

  lemma HomePathIsShortest(shards: seq<ShardState>, home: nat, start: string, maxDepth: int, t: HomeTrace, i: nat)
    requires HomeWalk(shards, home, start, maxDepth, t) && i < |t.items|
    requires FitItem(t.items[i])
    ensures var p := ItemPath(t.items[i]);
            && RealPath(HomeSet(shards, home), start, p) && EndOf(p) == t.items[i].vertex
            && p.depth == t.items[i].depth <= Limit(maxDepth)
            && IsDistance(HomeSet(shards, home), start, EndOf(p), p.depth)
            && EndOf(p) in Within(HomeSet(shards, home), start, Limit(maxDepth))
  {
    HomePathsReal(shards, home, start, maxDepth, t);
    GrownPath(HomeSet(shards, home), start, maxDepth, ItemPaths(t.items), i);
    ItemDistance(shards, home, start, maxDepth, t, i);
    WithinGrows(HomeSet(shards, home), start, t.items[i].depth, Limit(maxDepth));
  }

  lemma HomePathsLead(shards: seq<ShardState>, home: nat, start: string, maxDepth: int, t: HomeTrace, out: seq<Path>)
    requires HomeWalk(shards, home, start, maxDepth, t) && forall k :: 0 <= k < |t.items| ==> FitItem(t.items[k])
    requires |t.items| <= |out| && out[..|t.items|] == ItemPaths(t.items)
    ensures BreadthFirst(HomeSet(shards, home), start, maxDepth, out, |t.items|)
  {
    var es, n := HomeSet(shards, home), |t.items|;
    forall i | 0 <= i < n ensures out[i] == ItemPath(t.items[i]) {
      assert out[..n][i] == out[i];
    }
    forall i | 0 <= i < n
      ensures RealPath(es, start, out[i]) && IsDistance(es, start, EndOf(out[i]), out[i].depth)
      ensures EndOf(out[i]) in Within(es, start, Limit(maxDepth))
    {
      HomePathIsShortest(shards, home, start, maxDepth, t, i);
    }
    forall i, j | 0 <= i <= j < n ensures out[i].depth <= out[j].depth {
      DepthsSorted(shards, home, start, maxDepth, t.items, t.parents, i, j);
    }
    forall v | v in Within(es, start, Limit(maxDepth)) ensures v in Ends(out[..n]) {
      var k := WithinIsQueued(shards, home, start, maxDepth, t, Limit(maxDepth), v);
      assert out[..n][k] in out[..n];
    }
  }

  /** The paths of phase 1 lead the result, and they are exact breadth-first search of the start shard. */
  lemma HomePhaseIsBreadthFirst(shards: seq<ShardState>, home: nat, start: string, maxDepth: int,
                                t: HomeTrace, drained: seq<Continuation>, out: seq<Path>, visited: set<string>)
    requires Walked(shards, home, start, maxDepth, t, drained, out, visited)
    ensures BreadthFirst(HomeSet(shards, home), start, maxDepth, out, |t.items|)
  {
    WalkFits(shards, home, start, maxDepth, t, drained, out, visited);
    HomePathsLead(shards, home, start, maxDepth, t, out);
  }

  // Full reachability.

  ghost predicate Reaches(es: set<Edge>, start: string, v: string) {
    exists route :: IsRoute(es, start, route, v)
  }

  ghost function Candidates(es: set<Edge>, start: string): set<string> {
    {start} + set e | e in es :: e.to
  }

  /** All vertices some route leads to. */
  ghost function Reach(es: set<Edge>, start: string): set<string> {
    set v | v in Candidates(es, start) && Reaches(es, start, v)
  }

  lemma RouteEndsInReach(es: set<Edge>, start: string, route: seq<Edge>, v: string)
    requires IsRoute(es, start, route, v)
    ensures v in Reach(es, start)
  {
  }

  lemma ReachIsClosed(es: set<Edge>, start: string, e: Edge)
    requires e in es && e.from in Reach(es, start)
    ensures e.to in Reach(es, start)
  {
    var route :| IsRoute(es, start, route, e.from);
    assert (route + [e])[..|route + [e]| - 1] == route;
    RouteEndsInReach(es, start, route + [e], e.to);
  }

  lemma {:induction false} PathStaysInReach(es: set<Edge>, start: string, p: Path, k: nat)
    requires RealPath(es, start, p) && k < |p.vertices|
    ensures p.vertices[k] in Reach(es, start)
  {
    if k == 0 {
      RouteEndsInReach(es, start, [], start);
    } else {
      PathStaysInReach(es, start, p, k - 1);
      assert EdgeBetween(es, p.edges[k - 1], p.vertices[k - 1], p.vertices[k]);
      var e :| e in es && e.from == p.vertices[k - 1] && e.to == p.vertices[k];
      ReachIsClosed(es, start, e);
    }
  }

  /** A simple path has at most as many vertices as are reachable, and passes all of them if it has
      exactly that many. */
  lemma SimplePathFits(es: set<Edge>, start: string, p: Path)
    requires RealPath(es, start, p) && NoDup(p.vertices)
    ensures p.depth + 1 <= |Reach(es, start)|
    ensures p.depth + 1 == |Reach(es, start)| ==> forall v :: v in Reach(es, start) ==> v in p.vertices
  {
    var vs := set v | v in p.vertices;
    NoDupCount(p.vertices);
    forall v | v in vs ensures v in Reach(es, start) {
      var k :| 0 <= k < |p.vertices| && p.vertices[k] == v;
      PathStaysInReach(es, start, p, k);
    }
    SubsetCount(vs, Reach(es, start));
  }

  lemma {:induction false} RouteIsReturned(es: set<Edge>, start: string, maxDepth: int, out: seq<Path>,
                                           route: seq<Edge>, v: string)
    requires RootedTree(es, start, maxDepth, out) && DepthClosed(es, maxDepth, out)
             && maxDepth >= |Reach(es, start)| - 1
    requires IsRoute(es, start, route, v)
    ensures v in Ends(out)
    decreases |route|
  {
    if |route| == 0 {
      assert out[0] in out;
    } else {
      var last := route[|route| - 1];
      RouteIsReturned(es, start, maxDepth, out, route[..|route| - 1], last.from);
      var p :| p in out && EndOf(p) == last.from;
      var i :| 0 <= i < |out| && out[i] == p;
      if p.depth >= maxDepth {
        SimplePathFits(es, start, p);
        RouteEndsInReach(es, start, route, v);
        var k :| 0 <= k < |p.vertices| && p.vertices[k] == v;
        var a := PrefixPosition(out, i, k);
        assert out[a] in out;
      }
    }
  }

  lemma TreeStaysInReach(es: set<Edge>, start: string, maxDepth: int, out: seq<Path>)
    requires RootedTree(es, start, maxDepth, out)
    ensures Ends(out) <= Reach(es, start)
  {
    forall v | v in Ends(out) ensures v in Reach(es, start) {
      var p :| p in out && EndOf(p) == v;
      var i :| 0 <= i < |out| && out[i] == p;
      PathStaysInReach(es, start, out[i], |out[i].vertices| - 1);
    }
  }

  lemma DeepTreeCoversReach(es: set<Edge>, start: string, maxDepth: int, out: seq<Path>)
    requires RootedTree(es, start, maxDepth, out) && DepthClosed(es, maxDepth, out)
             && maxDepth >= |Reach(es, start)| - 1
    ensures Reach(es, start) <= Ends(out)
  {
    forall v | v in Reach(es, start) ensures v in Ends(out) {
      var route :| IsRoute(es, start, route, v);
      RouteIsReturned(es, start, maxDepth, out, route, v);
    }
  }

  lemma EndCount(out: seq<Path>)
    requires DistinctEnds(out)
    ensures |Ends(out)| == |out|
  {
    var ends := seq(|out|, i requires 0 <= i < |out| => EndOf(out[i]));
    NoDupCount(ends);
    assert Ends(out) == set v | v in ends by {
      forall p | p in out ensures EndOf(p) in ends {
        var i :| 0 <= i < |out| && out[i] == p;
        assert ends[i] == EndOf(p);
      }
    }
  }

  /** With a depth limit of at least the number of reachable vertices less one, a walk returns exactly
      one path for every reachable vertex and none for any other, wherever the edges are stored. */
  lemma DeepWalkReturnsReachable(shards: seq<ShardState>, home: nat, start: string, maxDepth: int,
                                 t: HomeTrace, drained: seq<Continuation>, out: seq<Path>, visited: set<string>)
    requires Walked(shards, home, start, maxDepth, t, drained, out, visited)
    requires maxDepth >= |Reach(EdgeSet(shards), start)| - 1
    ensures Ends(out) == Reach(EdgeSet(shards), start)
    ensures DistinctEnds(out) && |out| == |Reach(EdgeSet(shards), start)|
  {
    var es := EdgeSet(shards);
    WalkIsRootedTree(shards, home, start, maxDepth, t, drained, out, visited);
    WalkIsDepthClosed(shards, home, start, maxDepth, t, drained, out, visited);
    TreeStaysInReach(es, start, maxDepth, out);
    DeepTreeCoversReach(es, start, maxDepth, out);
    EndCount(out);
  }

  // Work.

  /** The two phases charge every queued continuation to a place of its own, so together they queue at
      most one continuation for each stored edge. */
  lemma WorkIsLinear(shards: seq<ShardState>, home: nat, start: string, maxDepth: int,
                     t: HomeTrace, drained: seq<Continuation>, out: seq<Path>, visited: set<string>,
                     carried: set<(nat, Edge)>)
    requires Walked(shards, home, start, maxDepth, t, drained, out, visited)
    requires ChargedTo(shards, carried, ContinuationVertices(drained))
    ensures |t.conts| + |carried| <= |Places(shards)|
  {
    assert ItemVertices(t.items) !! ContinuationVertices(drained);
    assert t.charged !! carried;
    assert |t.charged + carried| == |t.charged| + |carried|;
    SubsetCount(t.charged + carried, Places(shards));
  }

  lemma {:induction false} Project(ps: set<(nat, Edge)>)
    requires forall p, q :: p in ps && q in ps && p.1 == q.1 ==> p == q
    ensures |set p | p in ps :: p.1| == |ps|
  {
    if ps != {} {
      var p :| p in ps;
      Project(ps - {p});
      assert (set q | q in ps :: q.1) == (set q | q in ps - {p} :: q.1) + {p.1};
    }
  }

  lemma PlacesAreEdges(shards: seq<ShardState>)
    requires UniqueIds(shards)
    ensures |Places(shards)| == |EdgeSet(shards)|
  {
    var places := Places(shards);
    forall p, q | p in places && q in places && p.1 == q.1 ensures p == q {
      assert HasId(shards[p.0].live, p.1.id) && HasId(shards[q.0].live, q.1.id);
    }
    Project(places);
    assert EdgeSet(shards) == set p | p in places :: p.1 by {
      forall e | e in EdgeSet(shards) ensures e in (set p | p in places :: p.1) {
        var i :| 0 <= i < |shards| && e in shards[i].live;
        assert (i, e) in places;
      }
    }
  }
}
