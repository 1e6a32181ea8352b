/** The log as a description of the graph, and replay as an implementation of that description. */
module Journal {
  import opened Seqs
  import opened GraphModel
  import opened ShardSpec
  import opened StoreSpec
  import opened Routing
  import opened FlatGraph
  import opened Integrity

  /** The graph without any sharding. */
  datatype Graph = Graph(vertices: map<string, Vertex>, vertexSeq: seq<string>, edges: set<Edge>)

  ghost function GraphOf(s: StoreState): Graph {
    Graph(s.vertices, s.vertexSeq, EdgeSet(s.shards))
  }

  /** What a record says about the graph, knowing nothing of shards, routes or capacities. */
  ghost function Apply(g: Graph, r: Record): Graph {
    if r.op == "vertex" then g.(vertices := g.vertices[r.id := RecordedVertex(r)], vertexSeq := g.vertexSeq + [r.id])
    else if r.op == "edge" then g.(edges := g.edges + {RecordedEdge(r)})
    else if r.op == "edge-delete" then g.(edges := WithoutId(g.edges, r.id))
    else if r.op == "vertex-delete" then
      Graph(g.vertices - {r.id}, Filter(g.vertexSeq, IsNot(r.id)), WithoutTouching(g.edges, r.id))
    else g
  }

  ghost function LogGraph(log: seq<Record>): Graph {
    if |log| == 0 then Graph(map[], [], {}) else Apply(LogGraph(log[..|log| - 1]), log[|log| - 1])
  }

  ghost predicate NewId(g: Graph, id: string) {
    id !in g.vertices && forall e :: e in g.edges ==> e.id != id
  }

  /** A record the store could have written over the graph logged so far. */
  ghost predicate Legal(g: Graph, r: Record) {
    if r.op == "vertex" || r.op == "edge" then NewId(g, r.id)
    else if r.op == "vertex-delete" then r.id in g.vertices
    else r.op == "edge-delete"
  }

  ghost predicate WellFormed(log: seq<Record>) {
    |log| == 0 || (WellFormed(log[..|log| - 1]) && Legal(LogGraph(log[..|log| - 1]), log[|log| - 1]))
  }

  // Capacity of the collapsed layout.

  ghost function BucketLoad(cfg: Config, es: set<Edge>, b: nat): set<Edge> {
    set e | e in es && Bucket(cfg, e.Key()) == b
  }

  /** Each bucket's edges would fit into one shard. */
  ghost predicate Roomy(cfg: Config, es: set<Edge>) {
    forall b: nat :: b < cfg.buckets ==> |BucketLoad(cfg, es, b)| <= cfg.capacity
  }

  ghost predicate AlwaysRoomy(cfg: Config, log: seq<Record>) {
    forall n :: 0 <= n <= |log| ==> Roomy(cfg, LogGraph(log[..n]).edges)
  }

  /** One generation per bucket, holding that bucket's edges. */
  ghost predicate OnePerBucket(cfg: Config, t: StoreState) {
    && Sound(cfg, t)
    && t.gens == FreshState(cfg).gens && |t.shards| == cfg.buckets
    && (forall i, e :: 0 <= i < |t.shards| && e in t.shards[i].live ==> Bucket(cfg, e.Key()) == i)
  }

  /** The state replay builds. */
  ghost predicate Collapsed(cfg: Config, t: StoreState) {
    OnePerBucket(cfg, t) && !t.closed && t.labels == map[]
  }

  lemma BucketInRange(cfg: Config, key: string)
    requires ValidConfig(cfg)
    ensures Bucket(cfg, key) < cfg.buckets
  {
  }

  lemma CollapsedShard(cfg: Config, t: StoreState, b: nat)
    requires OnePerBucket(cfg, t) && b < cfg.buckets
    ensures Target(t, b) == Some(b) && t.shards[b].phase == Active
    ensures BucketLoad(cfg, EdgeSet(t.shards), b) == (set e | e in t.shards[b].live)
    ensures |BucketLoad(cfg, EdgeSet(t.shards), b)| == |t.shards[b].live|
  {
    assert Fronted(t, b) && t.gens[b] == [b];
    DistinctNoDup(t.shards[b].live);
    NoDupCount(t.shards[b].live);
  }

  lemma CollapsedIsRoomy(cfg: Config, t: StoreState)
    requires OnePerBucket(cfg, t)
    ensures Roomy(cfg, EdgeSet(t.shards))
    ensures forall id :: !Frozen(t, id)
  {
    forall b: nat | b < cfg.buckets
      ensures |BucketLoad(cfg, EdgeSet(t.shards), b)| <= cfg.capacity && t.shards[b].phase == Active
    {
      CollapsedShard(cfg, t, b);
      assert SoundShard(cfg, t.shards[b]);
    }
  }

  lemma RoomyShrinks(cfg: Config, es: set<Edge>, fewer: set<Edge>)
    requires Roomy(cfg, es) && fewer <= es
    ensures Roomy(cfg, fewer)
  {
    forall b: nat | b < cfg.buckets ensures |BucketLoad(cfg, fewer, b)| <= cfg.capacity {
      SubsetCount(BucketLoad(cfg, fewer, b), BucketLoad(cfg, es, b));
    }
  }

  lemma FewerStaysCollapsed(cfg: Config, t: StoreState, u: StoreState)
    requires Collapsed(cfg, t) && Sound(cfg, u) && SameLayout(t, u) && u.closed == t.closed && u.labels == t.labels
    requires EdgeSet(u.shards) <= EdgeSet(t.shards)
    requires forall i :: 0 <= i < |t.shards| ==> forall e :: e in u.shards[i].live ==> e in t.shards[i].live
    ensures Collapsed(cfg, u)
  {
  }

  // One record.

  lemma LoadAfterPut(cfg: Config, es: set<Edge>, e: Edge)
    requires ValidConfig(cfg) && Roomy(cfg, es) && e !in es
    ensures Roomy(cfg, es + {e}) <==> |BucketLoad(cfg, es, Bucket(cfg, e.Key()))| < cfg.capacity
  {
    var b := Bucket(cfg, e.Key());
    BucketInRange(cfg, e.Key());
    assert BucketLoad(cfg, es + {e}, b) == BucketLoad(cfg, es, b) + {e};
    forall c: nat | c != b ensures BucketLoad(cfg, es + {e}, c) == BucketLoad(cfg, es, c) {
    }
  }

  lemma ReplayEdge(cfg: Config, t: StoreState, r: Record)
    requires ValidConfig(cfg) && Collapsed(cfg, t) && r.op == "edge" && Legal(GraphOf(t), r)
    ensures var o := ReplayRecord(cfg, t, r);
            o.error.None? ==> Collapsed(cfg, o.state) && GraphOf(o.state) == Apply(GraphOf(t), r)
    ensures ReplayRecord(cfg, t, r).error.None? <==> Roomy(cfg, Apply(GraphOf(t), r).edges)
  {
    var e := RecordedEdge(r);
    var b := Bucket(cfg, e.Key());
    BucketInRange(cfg, e.Key());
    CollapsedShard(cfg, t, b);
    CollapsedIsRoomy(cfg, t);
    FreeMeansAbsent(t.shards, r.id);
    var o := ReplayRecord(cfg, t, r);
    if o.error.None? {
      PlaceKeeps(cfg, t, e, Some(b));
    }
    LoadAfterPut(cfg, EdgeSet(t.shards), e);
  }

  lemma ReplayVertex(cfg: Config, t: StoreState, r: Record)
    requires Collapsed(cfg, t) && r.op == "vertex" && Legal(GraphOf(t), r)
    ensures Collapsed(cfg, ReplayRecord(cfg, t, r).state)
            && GraphOf(ReplayRecord(cfg, t, r).state) == Apply(GraphOf(t), r)
  {
    FreeMeansAbsent(t.shards, r.id);
    PutVertexKeeps(cfg, t, ReplayRecord(cfg, t, r).state, RecordedVertex(r));
  }

  lemma KeptWithoutLabels(cfg: Config, t: StoreState)
    requires Collapsed(cfg, t)
    ensures Kept(cfg, t)
  {
  }

  lemma ReplayEvictEdge(cfg: Config, t: StoreState, e: Edge)
    requires Collapsed(cfg, t) && e in EdgeSet(t.shards)
    ensures ReplayEvict(t, e.id).error.None?
    ensures Collapsed(cfg, ReplayEvict(t, e.id).state) && SameBut(t, ReplayEvict(t, e.id).state)
    ensures EdgeSet(ReplayEvict(t, e.id).state.shards) == WithoutId(EdgeSet(t.shards), e.id)
  {
    var i :| 0 <= i < |t.shards| && e in t.shards[i].live;
    assert HasId(t.shards[i].live, e.id);
    CollapsedIsRoomy(cfg, t);
    KeptWithoutLabels(cfg, t);
    EvictKeeps(cfg, t, e);
    EvictEffect(cfg, t, e.id);
    FilterMembers(t.shards[i].live, IdIsNot(e.id));
    FewerStaysCollapsed(cfg, t, Evict(t, e.id).state);
  }

  lemma ReplayEdgeDelete(cfg: Config, t: StoreState, r: Record)
    requires Collapsed(cfg, t) && r.op == "edge-delete"
    ensures ReplayRecord(cfg, t, r).error.None?
    ensures Collapsed(cfg, ReplayRecord(cfg, t, r).state)
            && GraphOf(ReplayRecord(cfg, t, r).state) == Apply(GraphOf(t), r)
  {
    if e :| e in EdgeSet(t.shards) && e.id == r.id {
      ReplayEvictEdge(cfg, t, e);
    } else {
      FreeMeansAbsent(t.shards, r.id);
      EvictEffect(cfg, t, r.id);
    }
  }

  lemma {:induction false} ReplayCleanupEdges(cfg: Config, t: StoreState, es: seq<Edge>)
    requires Collapsed(cfg, t) && DistinctIds(es) && forall e :: e in es ==> e in EdgeSet(t.shards)
    ensures ReplayCleanup(t, es).error.None?
    ensures Collapsed(cfg, ReplayCleanup(t, es).state) && SameBut(t, ReplayCleanup(t, es).state)
    ensures EdgeSet(ReplayCleanup(t, es).state.shards) == WithoutAll(EdgeSet(t.shards), es)
    decreases |es|
  {
    if |es| > 0 {
      ReplayEvictEdge(cfg, t, es[0]);
      ReplayCleanupEdges(cfg, ReplayEvict(t, es[0].id).state, es[1..]);
      DropFirst(t.shards, es, |es|);
      assert es[1..][..|es| - 1] == es[1..] && es[..|es|] == es;
    }
  }

  lemma ReplayVertexDelete(cfg: Config, t: StoreState, r: Record)
    requires Collapsed(cfg, t) && r.op == "vertex-delete" && Legal(GraphOf(t), r)
    ensures ReplayRecord(cfg, t, r).error.None?
    ensures Collapsed(cfg, ReplayRecord(cfg, t, r).state)
            && GraphOf(ReplayRecord(cfg, t, r).state) == Apply(GraphOf(t), r)
  {
    IncidentMembers(cfg, t, r.id);
    ReplayCleanupEdges(cfg, t, Incident(t, r.id));
    DropVertexKeeps(cfg, ReplayCleanup(t, Incident(t, r.id)).state, r.id);
    WithoutIncident(cfg, t, r.id);
  }

  lemma ReplayRecordFollowsLog(cfg: Config, t: StoreState, r: Record)
    requires ValidConfig(cfg) && Collapsed(cfg, t) && Legal(GraphOf(t), r)
    ensures var o := ReplayRecord(cfg, t, r);
            o.error.None? ==> Collapsed(cfg, o.state) && GraphOf(o.state) == Apply(GraphOf(t), r)
    ensures ReplayRecord(cfg, t, r).error.None? <==> Roomy(cfg, Apply(GraphOf(t), r).edges)
  {
    CollapsedIsRoomy(cfg, t);
    if r.op == "edge" {
      ReplayEdge(cfg, t, r);
    } else {
      if r.op == "vertex" { ReplayVertex(cfg, t, r); }
      else if r.op == "edge-delete" { ReplayEdgeDelete(cfg, t, r); }
      else { ReplayVertexDelete(cfg, t, r); }
      RoomyShrinks(cfg, EdgeSet(t.shards), Apply(GraphOf(t), r).edges);
    }
  }

  lemma RoomyPrefixes(cfg: Config, log: seq<Record>)
    requires |log| > 0
    ensures AlwaysRoomy(cfg, log) <==> AlwaysRoomy(cfg, log[..|log| - 1]) && Roomy(cfg, LogGraph(log).edges)
  {
    var init := log[..|log| - 1];
    assert log[..|log|] == log;
    forall n | 0 <= n <= |init| ensures init[..n] == log[..n] {
    }
    if AlwaysRoomy(cfg, init) && Roomy(cfg, LogGraph(log).edges) {
      forall n | 0 <= n <= |log| ensures Roomy(cfg, LogGraph(log[..n]).edges) {
        if n < |log| { assert init[..n] == log[..n]; }
      }
    }
    if AlwaysRoomy(cfg, log) {
      assert Roomy(cfg, LogGraph(log[..|log|]).edges);
      forall n | 0 <= n <= |init| ensures Roomy(cfg, LogGraph(init[..n]).edges) {
        assert init[..n] == log[..n];
      }
    }
  }

  /** Replay rebuilds exactly the logged graph, and it goes through exactly when at every prefix of
      the log each bucket's logged edges fit into one shard. */
  lemma {:induction false} ReplayFollowsLog(cfg: Config, log: seq<Record>)
    requires ValidConfig(cfg) && WellFormed(log)
    ensures Replay(cfg, log).error.None? ==> Collapsed(cfg, Replay(cfg, log).state)
                                             && GraphOf(Replay(cfg, log).state) == LogGraph(log)
    ensures Replay(cfg, log).error.None? <==> AlwaysRoomy(cfg, log)
  {
    if |log| == 0 {
      FreshIsKept(cfg);
      CollapsedIsRoomy(cfg, FreshState(cfg));
    } else {
      var init, r := log[..|log| - 1], log[|log| - 1];
      ReplayFollowsLog(cfg, init);
      if Replay(cfg, init).error.None? {
        ReplayRecordFollowsLog(cfg, Replay(cfg, init).state, r);
      }
      RoomyPrefixes(cfg, log);
    }
  }
}
