/** Building reachable stores put by put, for the inputs on which an expected property fails. */
module Scenarios {
  import opened Seqs
  import opened GraphModel
  import opened ShardSpec
  import opened StoreSpec
  import opened Routing
  import opened FlatGraph
  import opened Integrity
  import opened Journal
  import opened Queries
  import opened Runs
  import opened Outcomes

  /** No bucket was rotated yet, and the store is open. */
  ghost predicate Unrotated(cfg: Config, s: StoreState) {
    && s.gens == FreshState(cfg).gens && s.active == FreshState(cfg).active && s.route == FreshState(cfg).route
    && |s.shards| == cfg.buckets && !s.closed
    && (forall i :: 0 <= i < |s.shards| ==> s.shards[i].phase == Active && s.shards[i].cap == cfg.capacity)
  }

  /** Every id the log holds is one of the graph. */
  ghost predicate LogKnows(g: Graph, log: seq<Record>) {
    forall id :: NewId(g, id) ==> NewId(LogGraph(log), id)
  }

  lemma LogKnowsAfter(cfg: Config, g: Graph, s: StoreState, r: Record)
    requires LogKnows(g, s.log) && (r.op == "vertex" || r.op == "edge")
    ensures LogKnows(Apply(g, r), Logging(cfg, s, r))
  {
    LogSnoc(s.log, r);
    forall id | NewId(Apply(g, r), id) ensures NewId(LogGraph(s.log), id) && NewId(Apply(LogGraph(s.log), r), id) {
      if r.op == "edge" { assert RecordedEdge(r) in Apply(g, r).edges; }
      assert NewId(g, id) by {
        assert forall e :: e in g.edges ==> e in Apply(g, r).edges;
      }
    }
  }

  /** An admissible run that leaves this graph, knows no further id in its log and never rotated. */
  ghost predicate Scene(cfg: Config, ops: seq<Op>, g: Graph) {
    && FreshRun(cfg, FreshState(cfg), ops) && UnheldRun(cfg, FreshState(cfg), ops)
    && var s := Run(cfg, FreshState(cfg), ops);
       && GraphOf(s) == g && Unrotated(cfg, s)
       && LogKnows(g, s.log)
  }

  ghost function Held(es: seq<Edge>): set<Edge> {
    set e | e in es
  }

  const NOTHING := Graph(map[], [], {})

  lemma RunSnoc(cfg: Config, s: StoreState, ops: seq<Op>, op: Op)
    ensures Run(cfg, s, ops + [op]) == Step(cfg, Run(cfg, s, ops), op).state
    ensures FreshRun(cfg, s, ops + [op]) <==> FreshRun(cfg, s, ops) && FreshId(cfg, Run(cfg, s, ops), op)
    ensures UnheldRun(cfg, s, ops + [op]) <==> UnheldRun(cfg, s, ops) && UnheldId(cfg, Run(cfg, s, ops), op)
  {
    assert (ops + [op])[..|ops|] == ops;
  }

  lemma SceneIsKept(cfg: Config, ops: seq<Op>, g: Graph)
    requires ValidConfig(cfg) && Scene(cfg, ops, g)
    ensures AdmissibleRun(cfg, FreshState(cfg), ops) && Kept(cfg, Run(cfg, FreshState(cfg), ops))
  {
    UnheldRunIsAdmissible(cfg, FreshState(cfg), ops);
    RunKeeps(cfg, ops);
  }

  lemma EmptyScene(cfg: Config)
    requires ValidConfig(cfg)
    ensures Scene(cfg, [], NOTHING)
  {
    FreshIsKept(cfg);
  }

  lemma AddVertex(cfg: Config, ops: seq<Op>, g: Graph, v: Vertex)
    requires ValidConfig(cfg) && Scene(cfg, ops, g) && v.id != "" && NewId(g, v.id)
    ensures Scene(cfg, ops + [PutVertexOp(v)], Apply(g, VertexRecord(v)))
    ensures var s, t := Run(cfg, FreshState(cfg), ops), Run(cfg, FreshState(cfg), ops + [PutVertexOp(v)]);
            t.shards == s.shards && t.log == Logging(cfg, s, VertexRecord(v))
  {
    RunSnoc(cfg, FreshState(cfg), ops, PutVertexOp(v));
    LogKnowsAfter(cfg, g, Run(cfg, FreshState(cfg), ops), VertexRecord(v));
  }

  lemma Lands(cfg: Config, s: StoreState, e: Edge, b: nat)
    requires Unrotated(cfg, s) && b < cfg.buckets && |s.shards[b].live| < cfg.capacity && IdFree(s.shards, e.id)
    ensures Target(s, b) == Some(b)
    ensures var o := Place(s, e, Some(b));
            && o.error.None? && Unrotated(cfg, o.state) && EdgeSet(o.state.shards) == EdgeSet(s.shards) + {e}
            && o.state.shards == s.shards[b := s.shards[b].(live := s.shards[b].live + [e])]
  {
    PlaceEffect(s, e, Some(b));
  }

  /** A routed put. */
  lemma AddRouted(cfg: Config, ops: seq<Op>, g: Graph, e: Edge)
    requires ValidConfig(cfg) && Scene(cfg, ops, g) && e.id != "" && NewId(g, e.id) && e.from in g.vertices
             && e.to in g.vertices
    requires var b := Bucket(cfg, e.Key()); |Run(cfg, FreshState(cfg), ops).shards[b].live| < cfg.capacity
    ensures Scene(cfg, ops + [PutEdgeOp(e)], g.(edges := g.edges + {e}))
    ensures var s, t := Run(cfg, FreshState(cfg), ops), Run(cfg, FreshState(cfg), ops + [PutEdgeOp(e)]);
            var b := Bucket(cfg, e.Key());
            t.shards == s.shards[b := s.shards[b].(live := s.shards[b].live + [e])]
            && t.log == Logging(cfg, s, EdgeRecord(e))
  {
    var s := Run(cfg, FreshState(cfg), ops);
    RunSnoc(cfg, FreshState(cfg), ops, PutEdgeOp(e));
    LogKnowsAfter(cfg, g, s, EdgeRecord(e));
    assert Apply(g, EdgeRecord(e)) == g.(edges := g.edges + {e});
    FreeMeansAbsent(s.shards, e.id);
    Lands(cfg, s, e, Bucket(cfg, e.Key()));
  }

  // Filling and rotating one bucket.

  /** An admissible run that leaves this graph and an open store whose bucket takes writes behind these edges. */
  ghost predicate Stage(cfg: Config, ops: seq<Op>, g: Graph, b: nat, live: seq<Edge>) {
    && FreshRun(cfg, FreshState(cfg), ops) && UnheldRun(cfg, FreshState(cfg), ops) && b < cfg.buckets
    && var s := Run(cfg, FreshState(cfg), ops);
       && Routed(cfg, s) && !s.closed && GraphOf(s) == g && ActiveShard(cfg, s, b).live == live
  }

  lemma SceneIsStage(cfg: Config, ops: seq<Op>, g: Graph, b: nat)
    requires ValidConfig(cfg) && Scene(cfg, ops, g) && b < cfg.buckets
    requires Run(cfg, FreshState(cfg), ops).shards == FreshState(cfg).shards
    ensures Stage(cfg, ops, g, b, [])
  {
    SceneIsKept(cfg, ops, g);
  }

  lemma PutOnStage(cfg: Config, s: StoreState, e: Edge, b: nat)
    requires ValidConfig(cfg) && Routed(cfg, s) && !s.closed && b < cfg.buckets && NewId(GraphOf(s), e.id)
    requires |ActiveShard(cfg, s, b).live| < cfg.capacity
    ensures var o := PutEdgeToBucket(cfg, s, e, b);
            && o.error.None? && Routed(cfg, o.state) && !o.state.closed
            && GraphOf(o.state) == GraphOf(s).(edges := GraphOf(s).edges + {e})
            && ActiveShard(cfg, o.state, b).live == ActiveShard(cfg, s, b).live + [e]
  {
    assert Fronted(s, b);
    FreeMeansAbsent(s.shards, e.id);
    PutEdgeToBucketOutcome(cfg, s, e, b);
    PlaceKeepsRouted(cfg, s, e, Target(s, b));
  }

  lemma Extend(cfg: Config, ops: seq<Op>, g: Graph, b: nat, live: seq<Edge>, e: Edge)
    requires ValidConfig(cfg) && Stage(cfg, ops, g, b, live) && NewId(g, e.id) && |live| < cfg.capacity
    ensures Stage(cfg, ops + [PutEdgeToBucketOp(e, b)], g.(edges := g.edges + {e}), b, live + [e])
  {
    RunSnoc(cfg, FreshState(cfg), ops, PutEdgeToBucketOp(e, b));
    PutOnStage(cfg, Run(cfg, FreshState(cfg), ops), e, b);
  }

  lemma TurnOnStage(cfg: Config, s: StoreState, b: nat)
    requires ValidConfig(cfg) && Routed(cfg, s) && !s.closed && b < cfg.buckets
    ensures var t := RotateBucket(cfg, s, b).state;
            && Routed(cfg, t) && !t.closed && GraphOf(t) == GraphOf(s)
            && ActiveShard(cfg, t, b).live == []
  {
    RotateOutcome(cfg, s, b);
    GenerationsKeepEdges(cfg, s, b);
  }

  lemma Turn(cfg: Config, ops: seq<Op>, g: Graph, b: nat, live: seq<Edge>)
    requires ValidConfig(cfg) && Stage(cfg, ops, g, b, live)
    ensures Stage(cfg, ops + [RotateBucketOp(b)], g, b, [])
  {
    RunSnoc(cfg, FreshState(cfg), ops, RotateBucketOp(b));
    TurnOnStage(cfg, Run(cfg, FreshState(cfg), ops), b);
  }

  /** Put into the bucket, one generation for all edges. */
  function PutInto(es: seq<Edge>, b: nat): seq<Op> {
    if |es| == 0 then [] else PutInto(es[..|es| - 1], b) + [PutEdgeToBucketOp(es[|es| - 1], b)]
  }

  /** Put into the bucket, one generation for each edge. */
  function Spread(es: seq<Edge>, b: nat): seq<Op> {
    if |es| == 0 then []
    else Spread(es[..|es| - 1], b) + [PutEdgeToBucketOp(es[|es| - 1], b)] + [RotateBucketOp(b)]
  }

  ghost predicate AllNew(g: Graph, es: seq<Edge>) {
    DistinctIds(es) && forall e :: e in es ==> NewId(g, e.id)
  }

  lemma LastIsNew(g: Graph, es: seq<Edge>)
    requires |es| > 0 && AllNew(g, es)
    ensures var init, e := es[..|es| - 1], es[|es| - 1];
            && AllNew(g, init) && NewId(g.(edges := g.edges + Held(init)), e.id)
            && Held(es) == Held(init) + {e}
  {
    var init, e := es[..|es| - 1], es[|es| - 1];
    assert es == init + [e] && e in es;
    forall f | f in init ensures f.id != e.id {
      var k :| 0 <= k < |init| && init[k] == f;
      assert es[k].id != es[|es| - 1].id;
    }
  }

  lemma Reassociate(a: seq<Op>, b: seq<Op>, op: Op)
    ensures a + b + [op] == a + (b + [op])
  {
  }

  lemma {:induction false} PutIntoStage(cfg: Config, ops: seq<Op>, g: Graph, b: nat, es: seq<Edge>)
    requires ValidConfig(cfg) && Stage(cfg, ops, g, b, []) && AllNew(g, es) && |es| <= cfg.capacity
    ensures Stage(cfg, ops + PutInto(es, b), g.(edges := g.edges + Held(es)), b, es)
  {
    if |es| == 0 {
      assert ops + [] == ops && g.edges + Held(es) == g.edges;
    } else {
      var init, e := es[..|es| - 1], es[|es| - 1];
      LastIsNew(g, es);
      PutIntoStage(cfg, ops, g, b, init);
      Extend(cfg, ops + PutInto(init, b), g.(edges := g.edges + Held(init)), b, init, e);
      Reassociate(ops, PutInto(init, b), PutEdgeToBucketOp(e, b));
      assert init + [e] == es && g.edges + Held(init) + {e} == g.edges + Held(es);
    }
  }

  lemma {:induction false} SpreadStage(cfg: Config, ops: seq<Op>, g: Graph, b: nat, es: seq<Edge>)
    requires ValidConfig(cfg) && Stage(cfg, ops, g, b, []) && AllNew(g, es)
    ensures Stage(cfg, ops + Spread(es, b), g.(edges := g.edges + Held(es)), b, [])
  {
    if |es| == 0 {
      assert ops + [] == ops && g.edges + Held(es) == g.edges;
    } else {
      var init, e := es[..|es| - 1], es[|es| - 1];
      LastIsNew(g, es);
      SpreadStage(cfg, ops, g, b, init);
      var before, g' := ops + Spread(init, b), g.(edges := g.edges + Held(init));
      Extend(cfg, before, g', b, [], e);
      Turn(cfg, before + [PutEdgeToBucketOp(e, b)], g'.(edges := g'.edges + {e}), b, [] + [e]);
      Reassociate(ops, Spread(init, b), PutEdgeToBucketOp(e, b));
      Reassociate(ops, Spread(init, b) + [PutEdgeToBucketOp(e, b)], RotateBucketOp(b));
      assert g.edges + Held(init) + {e} == g.edges + Held(es);
    }
  }
}
